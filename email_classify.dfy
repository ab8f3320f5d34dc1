// email_manager.py, fetch_updates (lines 342-529): the decisions taken on one
// e-mail once its subject and body are known. Is it relevant? Which carrier,
// which shop order number, which tracking number and which status does it
// report? The result is the update record that sync_with_db consumes.
// `body` is the decoded text after the tag removal of line 398
// (`re.sub('<[^<]+?>', '', body)`), which is not part of this model.

module EmailClassify {
  import opened Text
  import opened StatusHierarchy

  // =====================================================================
  // The update record
  // =====================================================================

  /**
   * One entry of the list fetch_updates returns. A key holding None is held
   * as "": every reader of the record tests these keys for truthiness only.
   */
  datatype EmailUpdate = EmailUpdate(
    emailId: string,
    subject: string,
    tracking: string,
    carrier: string,
    lastMileCarrier: string,
    siteOrderId: string,
    status: string,
    bodySnippet: string)

  // =====================================================================
  // Relevance
  // =====================================================================

  const RelevanceKeywords: seq<string> :=
    ["spedito", "consegnato", "tracking", "delivery", "shipped", "ordine", "order", "acquisto",
     "delivered", "dispatched", "transito", "transit", "partito", "consegna", "too good to go",
     "too good t go", "to good to go", "assegnazion", "sacchetto", "ritiro", "spedizione", "tgtg"]

  /** A folder dedicated to Too Good To Go. */
  predicate TgtgFolder(folderLower: string)
  {
    Contains(folderLower, "too good to go") || Contains(folderLower, "tgtg")
  }

  /** An e-mail is kept when its subject holds a keyword or it sits in a Too Good To Go folder. */
  predicate IsRelevant(subject: string, folder: string)
  {
    ContainsAny(Lower(subject), RelevanceKeywords) || TgtgFolder(Lower(folder))
  }

  /** Every subject mentioning an order is kept, whatever the folder. */
  lemma OrderSubjectRelevant(subject: string, folder: string)
    requires Contains(Lower(subject), "order")
    ensures IsRelevant(subject, folder)
  {
    assert RelevanceKeywords[6] == "order";
  }

  // =====================================================================
  // Shop order numbers: fixed-shape patterns
  // =====================================================================

  /** The three shop order-number shapes searched for by regular expression. */
  datatype IdShape =
    | AmazonId   // \d{3}-\d{7}-\d{7}
    | TemuId     // PO-\d{3}-\d{15,20}
    | EbayId     // \d{2}-\d{5}-\d{5}

  /** The length of the match of `shape` starting at index `i`, if it matches there (greedy for Temu). */
  function MatchLenAt(s: string, i: nat, shape: IdShape): (r: Option<nat>)
    ensures r.Some? ==> r.value > 0 && i + r.value <= |s|
  {
    match shape
    case AmazonId =>
      if DigitsAt(s, i, 3) && i + 3 < |s| && s[i + 3] == '-' && DigitsAt(s, i + 4, 7)
         && i + 11 < |s| && s[i + 11] == '-' && DigitsAt(s, i + 12, 7)
      then Some(19) else None
    case EbayId =>
      if DigitsAt(s, i, 2) && i + 2 < |s| && s[i + 2] == '-' && DigitsAt(s, i + 3, 5)
         && i + 8 < |s| && s[i + 8] == '-' && DigitsAt(s, i + 9, 5)
      then Some(14) else None
    case TemuId =>
      if i + 7 <= |s| && s[i..i + 3] == "PO-" && DigitsAt(s, i + 3, 3) && s[i + 6] == '-' then
        var run := DigitRun(s, i + 7);
        if run >= 15 then Some(7 + if run > 20 then 20 else run) else None
      else None
  }

  /** `re.search`: the leftmost index at or after `from` where `shape` matches. */
  function FirstMatchFrom(s: string, shape: IdShape, from: nat): (r: Option<nat>)
    ensures r.Some? ==> from <= r.value && MatchLenAt(s, r.value, shape).Some?
    ensures r.Some? ==> forall j :: from <= j < r.value ==> MatchLenAt(s, j, shape).None?
    ensures r.None? ==> forall j :: from <= j ==> MatchLenAt(s, j, shape).None?
    decreases |s| - from
  {
    if from >= |s| then None
    else if MatchLenAt(s, from, shape).Some? then Some(from)
    else FirstMatchFrom(s, shape, from + 1)
  }

  /** `match.group(1)` of the search for `shape` in `s`, if it matches anywhere. */
  function SearchId(s: string, shape: IdShape): (r: Option<string>)
    ensures r.Some? ==> |r.value| > 0 && exists i :: MatchLenAt(s, i, shape).Some? && OccursAt(s, r.value, i)
    ensures r.None? <==> forall j :: MatchLenAt(s, j, shape).None?
  {
    match FirstMatchFrom(s, shape, 0)
    case None => None
    case Some(i) =>
      var n := MatchLenAt(s, i, shape).value;
      Some(s[i..i + n])
  }

  /** An Amazon number standing in the text is found. */
  lemma AmazonNumberFound(pre: string, num: string, post: string)
    requires |num| == 19 && num[3] == '-' && num[11] == '-'
    requires forall k :: 0 <= k < 19 && k != 3 && k != 11 ==> IsDigit(num[k])
    ensures SearchId(pre + num + post, AmazonId).Some?
  {
    var s := pre + num + post;
    var i := |pre|;
    assert forall k :: 0 <= k < 19 ==> s[i + k] == num[k];
    assert MatchLenAt(s, i, AmazonId).Some?;
  }

  // =====================================================================
  // Carrier and shop order number
  // =====================================================================

  const Tgtg := "Too Good To Go"

  /** The first carrier guess, from the lower-cased subject-and-body and folder name; "" for none. */
  function PreliminaryCarrier(contentLower: string, folderLower: string): (r: string)
  {
    if ContainsAny(contentLower, ["too good to go", "to good to go", "tgtg"]) then Tgtg
    else if TgtgFolder(folderLower) then Tgtg
    else if Contains(contentLower, "amazon") then "Amazon"
    else if Contains(contentLower, "temu") then "Temu"
    else if Contains(contentLower, "ebay") then "eBay"
    else ""
  }

  /**
   * The shop order number and the carrier after the order-number search:
   * Amazon before Temu before eBay before the Too Good To Go booking code
   * `tgtgCode` (the result of a free-form search, taken as given); a found
   * number also fixes the carrier.
   */
  function SiteIdAndCarrier(content: string, tgtgCode: Option<string>, carrier: string): (r: (string, string))
  {
    match SearchId(content, AmazonId)
    case Some(id) => (id, "Amazon")
    case None =>
      match SearchId(content, TemuId)
      case Some(id) => (id, "Temu")
      case None =>
        match SearchId(content, EbayId)
        case Some(id) => (id, "eBay")
        case None =>
          match tgtgCode
          case Some(id) => (id, Tgtg)
          case None => ("", carrier)
  }

  /** The second carrier guess, taken only when none was made: Too Good To Go wording or folder. */
  function LateCarrier(subjectLower: string, bodyLower: string, folderLower: string): (r: string)
  {
    var words := ["too good to go", "to good to go"];
    if ContainsAny(subjectLower, words) || ContainsAny(bodyLower, words) then Tgtg
    else if Contains(folderLower, "too good to go") || Contains(folderLower, "to good to go") then Tgtg
    else ""
  }

  /**
   * The order-number precedence: an Amazon number wins over every other
   * pattern, a Temu number over eBay and the booking code, an eBay number
   * over the booking code; the winner names the carrier.
   */
  lemma SiteIdPrecedence(content: string, tgtgCode: Option<string>, carrier: string)
    ensures var r := SiteIdAndCarrier(content, tgtgCode, carrier);
      var a := SearchId(content, AmazonId);
      var t := SearchId(content, TemuId);
      var e := SearchId(content, EbayId);
      (a.Some? ==> r == (a.value, "Amazon"))
      && (a.None? && t.Some? ==> r == (t.value, "Temu"))
      && (a.None? && t.None? && e.Some? ==> r == (e.value, "eBay"))
      && (a.None? && t.None? && e.None? && tgtgCode.Some? ==> r == (tgtgCode.value, Tgtg))
      && (r.0 == "" <==> a.None? && t.None? && e.None? && (tgtgCode.None? || tgtgCode.value == ""))
      && (r.0 == "" && tgtgCode.None? ==> r.1 == carrier)
  {
    if SearchId(content, AmazonId).None? && SearchId(content, TemuId).None? {
      if SearchId(content, EbayId).None? && tgtgCode.Some? {
        assert SiteIdAndCarrier(content, tgtgCode, carrier) == (tgtgCode.value, Tgtg);
      }
    }
  }

  // =====================================================================
  // Tracking number
  // =====================================================================

  /** The matches of the tracking patterns (UPS, numeric, Poste Italiane, generic), pattern by pattern. */
  function Flatten(cands: seq<seq<string>>): (xs: seq<string>)
  {
    if cands == [] then [] else Flatten(cands[..|cands| - 1]) + cands[|cands| - 1]
  }

  /** The words that make any candidate acceptable. */
  const TrackingHints: seq<string> := ["tracking", "spedizione", "consuln"]

  /**
   * A candidate is taken when it is not part of the shop order number and
   * either stands in the subject or the text carries a tracking hint.
   */
  predicate TrackingOk(p: string, siteId: string, subject: string, hinted: bool)
  {
    !(siteId != "" && Contains(siteId, p)) && (Contains(subject, p) || hinted)
  }

  /** The first acceptable candidate of `xs`, or "". */
  function FirstTracking(xs: seq<string>, siteId: string, subject: string, hinted: bool): (r: string)
  {
    if xs == [] then ""
    else
      var prev := FirstTracking(xs[..|xs| - 1], siteId, subject, hinted);
      if prev != "" then prev
      else if TrackingOk(xs[|xs| - 1], siteId, subject, hinted) then xs[|xs| - 1]
      else ""
  }

  /**
   * The tracking number picked is the first candidate, in pattern order and
   * then text order, that is acceptable: it is a candidate, it is
   * acceptable, and every earlier candidate is not.
   */
  lemma {:induction false} FirstTrackingSpec(xs: seq<string>, siteId: string, subject: string, hinted: bool)
    requires forall k :: 0 <= k < |xs| ==> xs[k] != ""
    ensures var r := FirstTracking(xs, siteId, subject, hinted);
      (r == "" <==> forall k :: 0 <= k < |xs| ==> !TrackingOk(xs[k], siteId, subject, hinted))
      && (r != "" ==> exists i :: 0 <= i < |xs| && xs[i] == r && TrackingOk(r, siteId, subject, hinted)
                               && forall k :: 0 <= k < i ==> !TrackingOk(xs[k], siteId, subject, hinted))
  {
    if xs != [] {
      var init := xs[..|xs| - 1];
      FirstTrackingSpec(init, siteId, subject, hinted);
      var prev := FirstTracking(init, siteId, subject, hinted);
      if prev != "" {
        var i :| 0 <= i < |init| && init[i] == prev && TrackingOk(prev, siteId, subject, hinted)
                 && forall k :: 0 <= k < i ==> !TrackingOk(init[k], siteId, subject, hinted);
        assert xs[i] == prev;
      }
    }
  }

  /** Once a tracking number is found, later candidates change nothing. */
  lemma {:induction false} FirstTrackingExtend(xs: seq<string>, ys: seq<string>, siteId: string, subject: string, hinted: bool)
    requires FirstTracking(xs, siteId, subject, hinted) != ""
    ensures FirstTracking(xs + ys, siteId, subject, hinted) == FirstTracking(xs, siteId, subject, hinted)
    decreases |ys|
  {
    if ys == [] {
      assert xs + ys == xs;
    } else {
      var init := ys[..|ys| - 1];
      FirstTrackingExtend(xs, init, siteId, subject, hinted);
      assert (xs + ys)[..|xs + ys| - 1] == xs + init;
    }
  }

  /**
   * The inner loop over the matches of one pattern, entered while nothing
   * is found: it stops at the first acceptable match.
   */
  method ScanMatches(matches: seq<string>, siteId: string, subject: string, contentLower: string,
                     ghost before: seq<string>)
    returns (tracking: string)
    requires forall m :: 0 <= m < |matches| ==> matches[m] != ""
    requires FirstTracking(before, siteId, subject, ContainsAny(contentLower, TrackingHints)) == ""
    ensures tracking == FirstTracking(before + matches, siteId, subject, ContainsAny(contentLower, TrackingHints))
  {
    ghost var hinted := ContainsAny(contentLower, TrackingHints);
    tracking := "";
    var m := 0;
    assert before + matches[..0] == before;
    while m < |matches|
      invariant 0 <= m <= |matches|
      invariant tracking == "" == FirstTracking(before + matches[..m], siteId, subject, hinted)
    {
      assert (before + matches[..m + 1])[..|before| + m] == before + matches[..m];
      var potential := matches[m];
      if siteId != "" && Contains(siteId, potential) {
        m := m + 1;
        continue;
      }
      if Contains(subject, potential) || ContainsAny(contentLower, TrackingHints) {
        tracking := potential;
        assert FirstTracking(before + matches[..m + 1], siteId, subject, hinted) == potential;
        FirstTrackingExtend(before + matches[..m + 1], matches[m + 1..], siteId, subject, hinted);
        assert before + matches[..m + 1] + matches[m + 1..] == before + matches;
        return;
      }
      m := m + 1;
    }
    assert matches[..m] == matches;
  }

  /** The nested search loop over the patterns and their matches, with its two breaks. */
  method PickTracking(cands: seq<seq<string>>, siteId: string, subject: string, contentLower: string)
    returns (tracking: string)
    requires forall p, m :: 0 <= p < |cands| && 0 <= m < |cands[p]| ==> cands[p][m] != ""
    ensures tracking == FirstTracking(Flatten(cands), siteId, subject, ContainsAny(contentLower, TrackingHints))
  {
    ghost var hinted := ContainsAny(contentLower, TrackingHints);
    tracking := "";
    var p := 0;
    while p < |cands|
      invariant 0 <= p <= |cands|
      invariant tracking == FirstTracking(Flatten(cands[..p]), siteId, subject, hinted)
    {
      if tracking != "" {
        FlattenPrefix(cands, p, siteId, subject, hinted);
        return;
      }
      assert cands[..p + 1][..p] == cands[..p];
      tracking := ScanMatches(cands[p], siteId, subject, contentLower, Flatten(cands[..p]));
      p := p + 1;
    }
    assert cands[..p] == cands;
  }

  /** A tracking number found among the first `p` patterns is the one found among all of them. */
  lemma FlattenPrefix(cands: seq<seq<string>>, p: nat, siteId: string, subject: string, hinted: bool)
    requires p <= |cands| && FirstTracking(Flatten(cands[..p]), siteId, subject, hinted) != ""
    ensures FirstTracking(Flatten(cands), siteId, subject, hinted) == FirstTracking(Flatten(cands[..p]), siteId, subject, hinted)
  {
    FlattenAppend(cands[..p], cands[p..]);
    assert cands[..p] + cands[p..] == cands;
    FirstTrackingExtend(Flatten(cands[..p]), Flatten(cands[p..]), siteId, subject, hinted);
  }

  lemma {:induction false} FlattenAppend(a: seq<seq<string>>, b: seq<seq<string>>)
    ensures Flatten(a + b) == Flatten(a) + Flatten(b)
    decreases |b|
  {
    if b == [] {
      assert a + b == a;
    } else {
      var init := b[..|b| - 1];
      FlattenAppend(a, init);
      assert (a + b)[..|a + b| - 1] == a + init;
    }
  }

  // =====================================================================
  // Status
  // =====================================================================

  const SubjectDelivered: seq<string> := ["consegnato", "delivered", "consegna effettuata", "handed over"]
  const SubjectOutForDelivery: seq<string> := ["in consegna", "out for delivery", "arriverà oggi"]
  const SubjectShipped: seq<string> := ["spedito", "shipped", "invio", "dispatched", "sent", "partito"]
  const Confirmation: seq<string> := ["conferma", "ricevuto", "grazie", "thank you", "confirmed", "riepilogo"]
  const BodyDelivered: seq<string> :=
    ["consegna effettuata", "consegnato il", "consegnata il", "stato consegnato", "stata consegnata", "delivered on"]
  const BodyOutForDelivery: seq<string> := ["in consegna", "out for delivery", "today", "oggi"]
  const BodyInTransit: seq<string> := ["in transito", "in transit", "at sorting", "departed", "assegnato", "assegnazione"]
  const BodyShipped: seq<string> := ["spedito", "shipped", "invio", "dispatched", "sent", "in spedizione"]
  const TgtgCollected: seq<string> :=
    ["grazie per aver salvato", "ordine completato", "ritirato", "sacchetto salvato", "salvato del cibo",
     "consegnato", "consegnata"]
  const TgtgBooked: seq<string> :=
    ["confermato", "prenotazione", "magico sacchetto", "non dimenticare", "ritiro", "preparato"]
  const ProblemWords: seq<string> := ["eccezione", "problema", "ritardo", "exception", "delay", "address", "failure"]

  /** A keyword of `keys` in the subject or in the body. */
  predicate InEither(subjectLower: string, bodyLower: string, keys: seq<string>)
  {
    exists k :: k in keys && (Contains(subjectLower, k) || Contains(bodyLower, k))
  }

  /** The status read from the subject alone; "" when it names none. */
  function SubjectStatus(subjectLower: string): (r: string)
  {
    if ContainsAny(subjectLower, SubjectDelivered) then Consegnato
    else if ContainsAny(subjectLower, SubjectOutForDelivery) then InConsegna
    else if ContainsAny(subjectLower, SubjectShipped) then Spedito
    else ""
  }

  /** The status read from the body, consulted only when the subject names none. */
  function BodyStatus(bodyLower: string, confirmation: bool): (r: string)
  {
    if ContainsAny(bodyLower, BodyDelivered) then (if confirmation then "" else Consegnato)
    else if ContainsAny(bodyLower, BodyOutForDelivery) then InConsegna
    else if ContainsAny(bodyLower, BodyInTransit) then InTransito
    else if ContainsAny(bodyLower, BodyShipped) then Spedito
    else ""
  }

  /** The status cascade of fetch_updates; "" when the e-mail reports no status. */
  function StatusOf(subjectLower: string, bodyLower: string, carrier: string): (status: string)
  {
    var confirmation := ContainsAny(subjectLower, Confirmation);
    var s1 := SubjectStatus(subjectLower);
    var s2 := if s1 == "" then BodyStatus(bodyLower, confirmation) else s1;
    var s3 :=
      if carrier != Tgtg then s2
      else if InEither(subjectLower, bodyLower, TgtgCollected) then Consegnato
      else if InEither(subjectLower, bodyLower, TgtgBooked) then InTransito
      else if s2 == "" then InTransito
      else s2;
    var s4 := if s3 == "" && confirmation then InTransito else s3;
    if InEither(subjectLower, bodyLower, ProblemWords) then Problema else s4
  }

  /** A problem word anywhere overrides every other finding. */
  lemma ProblemOverrides(subjectLower: string, bodyLower: string, carrier: string)
    requires InEither(subjectLower, bodyLower, ProblemWords)
    ensures StatusOf(subjectLower, bodyLower, carrier) == Problema
  {
  }

  /** Without a problem word, a status named by the subject wins over anything in the body. */
  lemma SubjectBeforeBody(subjectLower: string, bodyLower: string, carrier: string)
    requires !InEither(subjectLower, bodyLower, ProblemWords) && carrier != Tgtg
    requires SubjectStatus(subjectLower) != ""
    ensures StatusOf(subjectLower, bodyLower, carrier) == SubjectStatus(subjectLower)
  {
  }

  /**
   * A confirmation subject never turns a delivery phrase of the body into
   * "Consegnato": the e-mail then counts as a confirmation, "In Transito".
   */
  lemma ConfirmationIgnoresBodyDelivery(subjectLower: string, bodyLower: string, carrier: string)
    requires !InEither(subjectLower, bodyLower, ProblemWords) && carrier != Tgtg
    requires SubjectStatus(subjectLower) == "" && ContainsAny(subjectLower, Confirmation)
    requires ContainsAny(bodyLower, BodyDelivered)
    ensures StatusOf(subjectLower, bodyLower, carrier) == InTransito
  {
  }

  /** Too Good To Go mail always gets a status: collected, or else "In Transito" by default. */
  lemma TgtgAlwaysHasStatus(subjectLower: string, bodyLower: string)
    requires !InEither(subjectLower, bodyLower, ProblemWords)
    ensures var s := StatusOf(subjectLower, bodyLower, Tgtg);
      s != "" && (InEither(subjectLower, bodyLower, TgtgCollected) ==> s == Consegnato)
    ensures !InEither(subjectLower, bodyLower, TgtgCollected) && !InEither(subjectLower, bodyLower, TgtgBooked)
            && SubjectStatus(subjectLower) == "" && !ContainsAny(bodyLower, BodyDelivered)
            && !ContainsAny(bodyLower, BodyOutForDelivery) && !ContainsAny(bodyLower, BodyInTransit)
            && !ContainsAny(bodyLower, BodyShipped)
            ==> StatusOf(subjectLower, bodyLower, Tgtg) == InTransito
  {
  }

  /** The cascade only ever yields "" or a label of the status ladder below the terminal refund/cancel ones. */
  lemma StatusIsALabel(subjectLower: string, bodyLower: string, carrier: string)
    ensures StatusOf(subjectLower, bodyLower, carrier) in {"", Consegnato, InConsegna, InTransito, Spedito, Problema}
  {
  }

  /** The step-by-step status cascade, reassigning `status` as fetch_updates does. */
  method ClassifyStatus(subjectLower: string, bodyLower: string, carrier: string) returns (status: string)
    ensures status == StatusOf(subjectLower, bodyLower, carrier)
  {
    status := "";
    if ContainsAny(subjectLower, SubjectDelivered) {
      status := Consegnato;
    } else if ContainsAny(subjectLower, SubjectOutForDelivery) {
      status := InConsegna;
    } else if ContainsAny(subjectLower, SubjectShipped) {
      status := Spedito;
    }
    var isConfirmation := ContainsAny(subjectLower, Confirmation);
    if status == "" {
      if ContainsAny(bodyLower, BodyDelivered) {
        if !isConfirmation {
          status := Consegnato;
        }
      } else if ContainsAny(bodyLower, BodyOutForDelivery) {
        status := InConsegna;
      } else if ContainsAny(bodyLower, BodyInTransit) {
        status := InTransito;
      } else if ContainsAny(bodyLower, BodyShipped) {
        status := Spedito;
      }
    }
    if carrier == Tgtg {
      if InEither(subjectLower, bodyLower, TgtgCollected) {
        status := Consegnato;
      } else if InEither(subjectLower, bodyLower, TgtgBooked) {
        status := InTransito;
      }
      if status == "" {
        status := InTransito;
      }
    }
    if status == "" && isConfirmation {
      status := InTransito;
    }
    if InEither(subjectLower, bodyLower, ProblemWords) {
      status := Problema;
    }
  }

  // =====================================================================
  // One e-mail
  // =====================================================================

  /** The carrier, shop order number, tracking number and status extracted from one e-mail. */
  datatype Extraction = Extraction(carrier: string, siteOrderId: string, tracking: string, status: string)

  /**
   * What fetch_updates extracts from an e-mail of `folder` with `subject`
   * and (tag-stripped) `body`; `tgtgCode` is the booking code the free-form
   * Too Good To Go search finds and `trackingCands` the matches of the
   * tracking patterns, both taken as given.
   */
  function Classify(folder: string, subject: string, body: string, tgtgCode: Option<string>,
                    trackingCands: seq<seq<string>>): (r: Extraction)
  {
    var content := subject + " " + body;
    var contentLower := Lower(content);
    var folderLower := Lower(folder);
    var c0 := PreliminaryCarrier(contentLower, folderLower);
    var sc := SiteIdAndCarrier(content, tgtgCode, c0);
    var tracking := FirstTracking(Flatten(trackingCands), sc.0, subject, ContainsAny(contentLower, TrackingHints));
    var carrier := if sc.1 == "" then LateCarrier(Lower(subject), Lower(body), folderLower) else sc.1;
    Extraction(carrier, sc.0, tracking, StatusOf(Lower(subject), Lower(body), carrier))
  }

  /** Too Good To Go wording anywhere in the e-mail makes Too Good To Go the carrier unless a shop number names another. */
  lemma TgtgWordingSetsCarrier(folder: string, subject: string, body: string, tgtgCode: Option<string>,
                               trackingCands: seq<seq<string>>)
    requires Contains(Lower(subject + " " + body), "tgtg")
    requires SearchId(subject + " " + body, AmazonId).None? && SearchId(subject + " " + body, TemuId).None?
    requires SearchId(subject + " " + body, EbayId).None?
    ensures Classify(folder, subject, body, tgtgCode, trackingCands).carrier == Tgtg
  {
    var contentLower := Lower(subject + " " + body);
    var keys := ["too good to go", "to good to go", "tgtg"];
    assert keys[2] == "tgtg";
    assert ContainsAny(contentLower, keys);
  }

  /** The body kept in the update record: its first 1000 characters. */
  function Snippet(body: string): (r: string)
    ensures |r| <= 1000 && |r| <= |body| && r == body[..|r|]
    ensures |body| <= 1000 ==> r == body
  {
    if |body| > 1000 then body[..1000] else body
  }

  /** The update record of one relevant e-mail; its id joins the folder and the message number. */
  function UpdateOf(folder: string, messageId: string, subject: string, body: string,
                    tgtgCode: Option<string>, trackingCands: seq<seq<string>>): (u: EmailUpdate)
  {
    var e := Classify(folder, subject, body, tgtgCode, trackingCands);
    EmailUpdate(folder + "_" + messageId, subject, e.tracking, e.carrier, "", e.siteOrderId, e.status, Snippet(body))
  }

  /** The loop body of fetch_updates for one relevant e-mail, step by step. */
  method ExtractUpdate(folder: string, messageId: string, subject: string, body: string,
                       tgtgCode: Option<string>, trackingCands: seq<seq<string>>) returns (u: EmailUpdate)
    requires forall p, m :: 0 <= p < |trackingCands| && 0 <= m < |trackingCands[p]| ==> trackingCands[p][m] != ""
    ensures u == UpdateOf(folder, messageId, subject, body, tgtgCode, trackingCands)
    ensures u.emailId == folder + "_" + messageId && u.lastMileCarrier == ""
  {
    var bodyLower := Lower(body);
    var subjectLower := Lower(subject);
    var content := subject + " " + body;
    var contentLower := Lower(content);
    var folderLower := Lower(folder);

    var carrier := "";
    var siteOrderId := "";
    if ContainsAny(contentLower, ["too good to go", "to good to go", "tgtg"]) {
      carrier := Tgtg;
    } else if TgtgFolder(folderLower) {
      carrier := Tgtg;
    } else if Contains(contentLower, "amazon") {
      carrier := "Amazon";
    } else if Contains(contentLower, "temu") {
      carrier := "Temu";
    } else if Contains(contentLower, "ebay") {
      carrier := "eBay";
    }

    var amazonMatch := SearchId(content, AmazonId);
    var temuMatch := SearchId(content, TemuId);
    var ebayMatch := SearchId(content, EbayId);
    if amazonMatch.Some? {
      siteOrderId, carrier := amazonMatch.value, "Amazon";
    } else if temuMatch.Some? {
      siteOrderId, carrier := temuMatch.value, "Temu";
    } else if ebayMatch.Some? {
      siteOrderId, carrier := ebayMatch.value, "eBay";
    } else if tgtgCode.Some? {
      siteOrderId, carrier := tgtgCode.value, Tgtg;
    }

    var tracking := PickTracking(trackingCands, siteOrderId, subject, contentLower);

    if carrier == "" {
      if ContainsAny(subjectLower, ["too good to go", "to good to go"])
         || ContainsAny(bodyLower, ["too good to go", "to good to go"]) {
        carrier := Tgtg;
      } else if Contains(folderLower, "too good to go") || Contains(folderLower, "to good to go") {
        carrier := Tgtg;
      }
    }

    var status := ClassifyStatus(subjectLower, bodyLower, carrier);
    u := EmailUpdate(folder + "_" + messageId, subject, tracking, carrier, "", siteOrderId, status, Snippet(body));
  }
}

// gui/import_file_dialog.py: duplicate detection of the orders read from a
// spreadsheet, CSV or JSON file (id or tracking match refined by description
// similarity, with a description-only fallback), and the import loop with its
// merge / import-as-new / skip choice for duplicates.

module ImportFile {
  import opened Text
  import opened Dates
  import opened Orders
  import opened Database
  import ImportHtml

  // =====================================================================
  // get_tokens and calculate_similarity
  // =====================================================================

  /** A non-empty run of word characters (`\w+`). */
  predicate IsWord(w: string)
  {
    |w| > 0 && forall i :: 0 <= i < |w| ==> IsWordChar(w[i])
  }

  /** The length of the run of word characters that opens `s`. */
  function WordPrefix(s: string): (n: nat)
    ensures n <= |s|
    ensures forall i :: 0 <= i < n ==> IsWordChar(s[i])
    ensures n == |s| || !IsWordChar(s[n])
  {
    if s == [] || !IsWordChar(s[0]) then 0 else 1 + WordPrefix(s[1..])
  }

  /** `re.findall(r'\w+', s)`: the maximal runs of word characters, left to right. */
  function WordRuns(s: string): (r: seq<string>)
    ensures forall k :: 0 <= k < |r| ==> IsWord(r[k])
    decreases |s|
  {
    if s == [] then []
    else if !IsWordChar(s[0]) then WordRuns(s[1..])
    else
      var n := WordPrefix(s);
      [s[..n]] + WordRuns(s[n..])
  }

  /** `get_tokens(text)`: the distinct lower-cased words longer than one character. */
  function Tokens(text: string): (ts: set<string>)
    ensures forall w :: w in ts ==> |w| > 1 && IsWord(w)
  {
    set w | w in WordRuns(Lower(text)) && |w| > 1
  }

  /** Tokens ignore letter case: the text and its lower-cased form give the same set. */
  lemma TokensIgnoreCase(text: string)
    ensures Tokens(Lower(text)) == Tokens(text)
  {
    LowerIdempotent(text);
  }

  /** A text without word characters has no tokens. */
  lemma {:induction false} NoWordsNoTokens(s: string)
    requires forall i :: 0 <= i < |s| ==> !IsWordChar(s[i])
    ensures WordRuns(s) == []
    decreases |s|
  {
    if s != [] {
      NoWordsNoTokens(s[1..]);
    }
  }

  /**
   * `calculate_similarity`: shared tokens over the size of the larger set; 0
   * when either is empty. The source computes a Python float; the quotient
   * is held here as an exact real, which orders small quotients the same way.
   */
  function Similarity(a: set<string>, b: set<string>): (r: real)
    ensures r >= 0.0
    ensures a == {} || b == {} ==> r == 0.0
  {
    if a == {} || b == {} then 0.0
    else (|a * b| as real) / ((if |a| >= |b| then |a| else |b|) as real)
  }

  lemma {:induction false} SubsetCard(x: set<string>, y: set<string>)
    requires x <= y
    ensures |x| <= |y|
    decreases |y|
  {
    if x != {} {
      var e :| e in x;
      SubsetCard(x - {e}, y - {e});
    }
  }

  /** The similarity is symmetric and at most 1. */
  lemma SimilarityFacts(a: set<string>, b: set<string>)
    ensures Similarity(a, b) == Similarity(b, a)
    ensures Similarity(a, b) <= 1.0
  {
    assert a * b == b * a;
    if a != {} && b != {} {
      SubsetCard(a * b, a);
      SubsetCard(a * b, b);
      var m := if |a| >= |b| then |a| else |b|;
      QuotientAtMostOne(|a * b|, m);
    }
  }

  /** A non-empty token set is fully similar to itself. */
  lemma SimilaritySelf(a: set<string>)
    requires a != {}
    ensures Similarity(a, a) == 1.0
  {
    assert a * a == a;
    assert |a * a| == |a| > 0;
    var n := |a| as real;
    assert Similarity(a, a) == n / n;
  }

  lemma QuotientAtMostOne(x: nat, m: nat)
    requires 0 < m && x <= m
    ensures (x as real) / (m as real) <= 1.0
  {
    assert (x as real) <= (m as real);
  }

  // =====================================================================
  // _find_duplicates
  // =====================================================================

  /** The 0.6 threshold of the description-only fallback. */
  const Threshold: real := 0.6

  /** The similarity of a stored order's description to the new tokens. */
  function SimTo(newTokens: set<string>, e: Order): (r: real)
    ensures r >= 0.0
  {
    Similarity(newTokens, Tokens(e.description))
  }

  /** Phase 1: the stored orders sharing the trimmed id or tracking number, in store order. */
  function Candidates(all: seq<Order>, site: string, tracking: string): (r: seq<Order>)
    ensures |r| <= |all|
  {
    if all == [] then []
    else
      var init := Candidates(all[..|all| - 1], site, tracking);
      var e := all[|all| - 1];
      if ImportHtml.SameShipment(site, tracking, e) then init + [e] else init
  }

  /** The candidates are exactly the stored orders with a matching id or tracking number. */
  lemma {:induction false} CandidatesSpec(all: seq<Order>, site: string, tracking: string)
    ensures forall e :: e in Candidates(all, site, tracking) <==> e in all && ImportHtml.SameShipment(site, tracking, e)
  {
    if all != [] {
      var init := all[..|all| - 1];
      CandidatesSpec(init, site, tracking);
      assert forall x :: x in all <==> x in init || x == all[|all| - 1];
    }
  }

  /**
   * Candidate `j` is the stored order `all[i]`, and every matching order
   * stored before `i` is a candidate before `j`.
   */
  predicate OrderedAt(all: seq<Order>, cands: seq<Order>, site: string, tracking: string, i: nat, j: nat)
    requires i < |all| && j < |cands|
  {
    all[i] == cands[j]
    && forall k :: 0 <= k < i && ImportHtml.SameShipment(site, tracking, all[k]) ==>
         exists m :: 0 <= m < j && cands[m] == all[k]
  }

  /** The candidates keep store order. */
  lemma {:induction false} CandidatesOrder(all: seq<Order>, site: string, tracking: string, j: nat)
    requires j < |Candidates(all, site, tracking)|
    ensures exists i :: 0 <= i < |all| && OrderedAt(all, Candidates(all, site, tracking), site, tracking, i, j)
  {
    var cands := Candidates(all, site, tracking);
    var init := all[..|all| - 1];
    var prev := Candidates(init, site, tracking);
    var x := all[|all| - 1];
    assert cands == if ImportHtml.SameShipment(site, tracking, x) then prev + [x] else prev;
    assert forall m :: 0 <= m < |prev| ==> cands[m] == prev[m];
    if j < |prev| {
      CandidatesOrder(init, site, tracking, j);
      var i :| 0 <= i < |init| && OrderedAt(init, prev, site, tracking, i, j);
      OrderedAtExtend(all, cands, init, prev, site, tracking, i, j);
    } else {
      CandidatesSpec(init, site, tracking);
      OrderedAtLast(all, cands, init, prev, site, tracking);
    }
  }

  /** Appending to both sequences keeps an established position. */
  lemma OrderedAtExtend(all: seq<Order>, cands: seq<Order>, init: seq<Order>, prev: seq<Order>,
                        site: string, tracking: string, i: nat, j: nat)
    requires all != [] && init == all[..|all| - 1] && |prev| <= |cands|
    requires forall m :: 0 <= m < |prev| ==> cands[m] == prev[m]
    requires i < |init| && j < |prev| && OrderedAt(init, prev, site, tracking, i, j)
    ensures OrderedAt(all, cands, site, tracking, i, j)
  {
    forall k | 0 <= k < i && ImportHtml.SameShipment(site, tracking, all[k])
      ensures exists m :: 0 <= m < j && cands[m] == all[k]
    {
      assert all[k] == init[k];
      var m :| 0 <= m < j && prev[m] == init[k];
      assert cands[m] == prev[m];
    }
  }

  /** A candidate appended last sits after every earlier matching order. */
  lemma OrderedAtLast(all: seq<Order>, cands: seq<Order>, init: seq<Order>, prev: seq<Order>,
                      site: string, tracking: string)
    requires all != [] && init == all[..|all| - 1] && cands == prev + [all[|all| - 1]]
    requires forall e :: e in prev <==> e in init && ImportHtml.SameShipment(site, tracking, e)
    ensures OrderedAt(all, cands, site, tracking, |init|, |prev|)
  {
    forall k | 0 <= k < |init| && ImportHtml.SameShipment(site, tracking, all[k])
      ensures exists m :: 0 <= m < |prev| && cands[m] == all[k]
    {
      assert all[k] == init[k] && init[k] in init;
      var m :| 0 <= m < |prev| && prev[m] == all[k];
      assert cands[m] == prev[m];
    }
  }

  /** Without an id or tracking match there are no candidates. */
  lemma {:induction false} NoCandidates(all: seq<Order>, site: string, tracking: string)
    requires forall e :: e in all ==> !ImportHtml.SameShipment(site, tracking, e)
    ensures Candidates(all, site, tracking) == []
  {
    if all != [] {
      var init := all[..|all| - 1];
      assert forall x :: x in init ==> x in all;
      NoCandidates(init, site, tracking);
      assert all[|all| - 1] in all;
    }
  }

  /** The similarity of each order of `cands` to the new tokens, in order. */
  function Sims(cands: seq<Order>, newTokens: set<string>): (sims: seq<real>)
    ensures |sims| == |cands|
    ensures forall k :: 0 <= k < |cands| ==> sims[k] == SimTo(newTokens, cands[k])
  {
    seq(|cands|, k requires 0 <= k < |cands| => SimTo(newTokens, cands[k]))
  }

  /**
   * The search loop `if sim > max_sim: max_sim = sim; best = cand` over the
   * similarities `sims`, started from `start`: the index picked and the
   * largest similarity.
   */
  function ArgMax(sims: seq<real>, start: real): (r: (Option<nat>, real))
    ensures r.0.Some? ==> r.0.value < |sims|
  {
    if sims == [] then (None, start)
    else
      var prev := ArgMax(sims[..|sims| - 1], start);
      var sim := sims[|sims| - 1];
      if sim > prev.1 then (Some(|sims| - 1), sim) else prev
  }

  /** One more similarity: the search either moves to it or keeps what it had. */
  lemma ArgMaxStep(sims: seq<real>, k: nat, start: real)
    requires k < |sims|
    ensures ArgMax(sims[..k + 1], start)
         == (var p := ArgMax(sims[..k], start); if sims[k] > p.1 then (Some(k), sims[k]) else p)
  {
    assert sims[..k + 1][..k] == sims[..k];
  }

  /** The search ends on the largest value: neither the start nor any similarity exceeds it. */
  lemma {:induction false} ArgMaxIsMax(sims: seq<real>, start: real)
    ensures var r := ArgMax(sims, start);
      start <= r.1 && forall k :: 0 <= k < |sims| ==> sims[k] <= r.1
  {
    if sims != [] {
      var init := sims[..|sims| - 1];
      ArgMaxIsMax(init, start);
      assert forall k :: 0 <= k < |init| ==> sims[k] == init[k];
    }
  }

  /**
   * The search keeps the start when it picks nothing; otherwise the value
   * it ends on is the similarity of the picked order, above the start, and
   * ties go to the first: every earlier similarity is strictly smaller.
   */
  lemma {:induction false} ArgMaxPick(sims: seq<real>, start: real)
    ensures var r := ArgMax(sims, start);
      (r.0.None? ==> r.1 == start)
      && (r.0.Some? ==> r.1 == sims[r.0.value] && r.1 > start
                        && forall k :: 0 <= k < r.0.value ==> sims[k] < r.1)
  {
    if sims != [] {
      var init := sims[..|sims| - 1];
      ArgMaxPick(init, start);
      ArgMaxIsMax(init, start);
      assert forall k :: 0 <= k < |init| ==> sims[k] == init[k];
    }
  }

  /** Started below every similarity, the search always picks one when there is one. */
  lemma ArgMaxFromBelow(sims: seq<real>, start: real)
    requires sims != [] && forall k :: 0 <= k < |sims| ==> start < sims[k]
    ensures ArgMax(sims, start).0.Some?
  {
    ArgMaxIsMax(sims, start);
    ArgMaxPick(sims, start);
  }

  /**
   * The stored order `_find_duplicates` reports for a parsed order with
   * trimmed id `site`, trimmed tracking number `tracking` and description
   * tokens `newTokens`, if any.
   */
  function DupForKeys(all: seq<Order>, site: string, tracking: string, newTokens: set<string>): (r: Option<Order>)
  {
    var cands := Candidates(all, site, tracking);
    if cands != [] then
      var b := ArgMax(Sims(cands, newTokens), -1.0);
      if b.0.Some? then Some(cands[b.0.value]) else None
    else if newTokens != {} then
      var b := ArgMax(Sims(all, newTokens), 0.0);
      if b.0.Some? && b.1 >= Threshold then Some(all[b.0.value]) else None
    else None
  }

  /** `_find_duplicates` for one parsed order. */
  function DupFor(all: seq<Order>, d: OrderData): (r: Option<Order>)
  {
    DupForKeys(all, ImportHtml.Key(d.siteOrderId), ImportHtml.Key(d.trackingNumber),
               Tokens(ImportHtml.Key(d.description)))
  }

  /**
   * An id or tracking match always yields a duplicate, chosen among the
   * matching orders as the one whose description is most similar.
   */
  lemma DupByShipment(all: seq<Order>, site: string, tracking: string, newTokens: set<string>)
    requires exists e :: e in all && ImportHtml.SameShipment(site, tracking, e)
    ensures var r := DupForKeys(all, site, tracking, newTokens);
      r.Some? && r.value in all && ImportHtml.SameShipment(site, tracking, r.value)
      && (forall e :: e in all && ImportHtml.SameShipment(site, tracking, e) ==>
            SimTo(newTokens, e) <= SimTo(newTokens, r.value))
      && (exists i :: 0 <= i < |all| && r.value == all[i]
            && forall k :: 0 <= k < i && ImportHtml.SameShipment(site, tracking, all[k]) ==>
                 SimTo(newTokens, all[k]) < SimTo(newTokens, all[i]))
  {
    DupByShipmentBest(all, site, tracking, newTokens);
    DupByShipmentFirst(all, site, tracking, newTokens);
  }

  /** The shipment duplicate is a matching order of largest similarity. */
  lemma DupByShipmentBest(all: seq<Order>, site: string, tracking: string, newTokens: set<string>)
    requires exists e :: e in all && ImportHtml.SameShipment(site, tracking, e)
    ensures var r := DupForKeys(all, site, tracking, newTokens);
      r.Some? && r.value in all && ImportHtml.SameShipment(site, tracking, r.value)
      && forall e :: e in all && ImportHtml.SameShipment(site, tracking, e) ==>
           SimTo(newTokens, e) <= SimTo(newTokens, r.value)
  {
    var cands := Candidates(all, site, tracking);
    CandidatesSpec(all, site, tracking);
    var e :| e in all && ImportHtml.SameShipment(site, tracking, e);
    assert e in cands;
    var sims := Sims(cands, newTokens);
    ArgMaxFromBelow(sims, -1.0);
    ArgMaxIsMax(sims, -1.0);
    ArgMaxPick(sims, -1.0);
    var b := ArgMax(sims, -1.0);
    assert cands[b.0.value] in cands;
    forall x | x in all && ImportHtml.SameShipment(site, tracking, x)
      ensures SimTo(newTokens, x) <= b.1
    {
      assert x in cands;
      var k :| 0 <= k < |cands| && cands[k] == x;
      assert sims[k] <= b.1;
    }
  }

  /** Among equally similar matching orders, the one stored first is reported. */
  lemma DupByShipmentFirst(all: seq<Order>, site: string, tracking: string, newTokens: set<string>)
    requires exists e :: e in all && ImportHtml.SameShipment(site, tracking, e)
    ensures var r := DupForKeys(all, site, tracking, newTokens);
      r.Some?
      && exists i :: 0 <= i < |all| && r.value == all[i]
           && forall k :: 0 <= k < i && ImportHtml.SameShipment(site, tracking, all[k]) ==>
                SimTo(newTokens, all[k]) < SimTo(newTokens, all[i])
  {
    var cands := Candidates(all, site, tracking);
    CandidatesSpec(all, site, tracking);
    var e :| e in all && ImportHtml.SameShipment(site, tracking, e);
    assert e in cands;
    var sims := Sims(cands, newTokens);
    ArgMaxFromBelow(sims, -1.0);
    var j := ArgMax(sims, -1.0).0.value;
    assert DupForKeys(all, site, tracking, newTokens) == Some(cands[j]);
    ShipmentPickFirst(all, site, tracking, newTokens);
  }

  /** The candidate the similarity search picks is the first of largest similarity in store order. */
  lemma ShipmentPickFirst(all: seq<Order>, site: string, tracking: string, newTokens: set<string>)
    ensures var cands := Candidates(all, site, tracking);
      var b := ArgMax(Sims(cands, newTokens), -1.0);
      b.0.Some? ==>
        exists i :: 0 <= i < |all| && all[i] == cands[b.0.value]
          && forall k :: 0 <= k < i && ImportHtml.SameShipment(site, tracking, all[k]) ==>
               SimTo(newTokens, all[k]) < SimTo(newTokens, all[i])
  {
    var cands := Candidates(all, site, tracking);
    var sims := Sims(cands, newTokens);
    var b := ArgMax(sims, -1.0);
    if b.0.Some? {
      var j := b.0.value;
      ArgMaxPick(sims, -1.0);
      CandidatesOrder(all, site, tracking, j);
      var i :| 0 <= i < |all| && OrderedAt(all, cands, site, tracking, i, j);
      assert sims[j] == b.1;
      forall k | 0 <= k < i && ImportHtml.SameShipment(site, tracking, all[k])
        ensures SimTo(newTokens, all[k]) < SimTo(newTokens, all[i])
      {
        var m :| 0 <= m < j && cands[m] == all[k];
        assert sims[m] < b.1;
      }
    }
  }

  /**
   * Without an id or tracking match, a duplicate is reported exactly when
   * some stored description reaches a similarity of 0.6, and then it is the
   * first stored order of largest similarity.
   */
  lemma DupByDescription(all: seq<Order>, site: string, tracking: string, newTokens: set<string>)
    requires forall e :: e in all ==> !ImportHtml.SameShipment(site, tracking, e)
    ensures var r := DupForKeys(all, site, tracking, newTokens);
      (r.Some? <==> exists k :: 0 <= k < |all| && Threshold <= SimTo(newTokens, all[k]))
      && (r.Some? ==> exists i :: 0 <= i < |all| && r.value == all[i] && Threshold <= SimTo(newTokens, all[i])
                        && (forall k :: 0 <= k < |all| ==> SimTo(newTokens, all[k]) <= SimTo(newTokens, all[i]))
                        && (forall k :: 0 <= k < i ==> SimTo(newTokens, all[k]) < SimTo(newTokens, all[i])))
  {
    NoCandidates(all, site, tracking);
    if newTokens != {} {
      ThresholdPick(all, newTokens);
    }
  }

  /** The description search over the whole store, in terms of the stored orders. */
  lemma ThresholdPick(all: seq<Order>, newTokens: set<string>)
    ensures var b := ArgMax(Sims(all, newTokens), 0.0);
      (b.0.Some? && b.1 >= Threshold <==> exists k :: 0 <= k < |all| && Threshold <= SimTo(newTokens, all[k]))
      && (b.0.Some? && b.1 >= Threshold ==>
            var i := b.0.value;
            Threshold <= SimTo(newTokens, all[i])
            && (forall k :: 0 <= k < |all| ==> SimTo(newTokens, all[k]) <= SimTo(newTokens, all[i]))
            && (forall k :: 0 <= k < i ==> SimTo(newTokens, all[k]) < SimTo(newTokens, all[i])))
  {
    var sims := Sims(all, newTokens);
    ArgMaxThreshold(sims);
  }

  /**
   * The search over `sims` started from 0 ends at or above the threshold
   * exactly when some value reaches it, and then it has picked the first
   * largest value.
   */
  lemma ArgMaxThreshold(sims: seq<real>)
    ensures var b := ArgMax(sims, 0.0);
      (b.0.Some? && b.1 >= Threshold <==> exists k :: 0 <= k < |sims| && Threshold <= sims[k])
      && (b.0.Some? && b.1 >= Threshold ==>
            b.1 == sims[b.0.value]
            && (forall k :: 0 <= k < |sims| ==> sims[k] <= b.1)
            && (forall k :: 0 <= k < b.0.value ==> sims[k] < b.1))
  {
    ArgMaxIsMax(sims, 0.0);
    ArgMaxPick(sims, 0.0);
  }

  /** A blank description (no word character) gives no tokens. */
  lemma BlankTextNoTokens(text: string)
    requires forall i :: 0 <= i < |text| ==> !IsWordChar(text[i])
    ensures Tokens(text) == {}
  {
    LowerKeepsNonWord(text);
    NoWordsNoTokens(Lower(text));
  }

  /** A parsed order with no word in its description and no id or tracking match is never a duplicate. */
  lemma NoWordsNoMatch(all: seq<Order>, site: string, tracking: string)
    requires forall e :: e in all ==> !ImportHtml.SameShipment(site, tracking, e)
    ensures DupForKeys(all, site, tracking, {}).None?
  {
    NoCandidates(all, site, tracking);
  }

  lemma LowerKeepsNonWord(s: string)
    requires forall i :: 0 <= i < |s| ==> !IsWordChar(s[i])
    ensures forall i :: 0 <= i < |Lower(s)| ==> !IsWordChar(Lower(s)[i])
  {
    forall i | 0 <= i < |Lower(s)|
      ensures !IsWordChar(Lower(s)[i])
    {
      assert Lower(s)[i] == LowerChar(s[i]);
    }
  }

  /** Phase 1 of the loop body: collect the stored orders with a matching id or tracking number. */
  method CollectCandidates(all: seq<Order>, site: string, tracking: string) returns (cands: seq<Order>)
    ensures cands == Candidates(all, site, tracking)
  {
    cands := [];
    for k := 0 to |all|
      invariant cands == Candidates(all[..k], site, tracking)
    {
      assert all[..k + 1][..k] == all[..k];
      var existing := all[k];
      var exSite := Strip(existing.siteOrderId);
      var exTracking := Strip(existing.trackingNumber);
      var matchId := site != "" && exSite != "" && site == exSite;
      var matchTrack := tracking != "" && exTracking != "" && tracking == exTracking;
      if matchId || matchTrack {
        cands := cands + [existing];
      }
    }
    assert all[..|all|] == all;
  }

  /** Phases 2 and 3 of the loop body: keep the first order of strictly largest similarity. */
  method PickBest(cands: seq<Order>, newTokens: set<string>, start: real) returns (best: Option<nat>, maxSim: real)
    ensures (best, maxSim) == ArgMax(Sims(cands, newTokens), start)
  {
    ghost var sims := Sims(cands, newTokens);
    best, maxSim := None, start;
    for k := 0 to |cands|
      invariant (best, maxSim) == ArgMax(sims[..k], start)
    {
      ArgMaxStep(sims, k, start);
      var sim := Similarity(newTokens, Tokens(cands[k].description));
      assert sim == sims[k];
      if sim > maxSim {
        maxSim := sim;
        best := Some(k);
      }
    }
    assert sims[..|cands|] == sims;
  }

  /** The body of the outer loop of `_find_duplicates` for one parsed order. */
  method FindDuplicateFor(all: seq<Order>, d: OrderData) returns (dup: Option<Order>)
    ensures dup == DupFor(all, d)
  {
    var newSite := ImportHtml.Key(d.siteOrderId);
    var newTracking := ImportHtml.Key(d.trackingNumber);
    var newDesc := ImportHtml.Key(d.description);
    var newTokens := Tokens(newDesc);
    dup := FindDuplicateForKeys(all, newSite, newTracking, newTokens);
  }

  method FindDuplicateForKeys(all: seq<Order>, newSite: string, newTracking: string, newTokens: set<string>)
    returns (dup: Option<Order>)
    ensures dup == DupForKeys(all, newSite, newTracking, newTokens)
  {
    var candidates := CollectCandidates(all, newSite, newTracking);
    dup := None;
    if candidates != [] {
      ArgMaxFromBelow(Sims(candidates, newTokens), -1.0);
      var best, _ := PickBest(candidates, newTokens, -1.0);
      if best.Some? {
        dup := Some(candidates[best.value]);
      }
    }
    if dup.None? && newTokens != {} {
      var best, maxSim := PickBest(all, newTokens, 0.0);
      if best.Some? {
        dup := Some(all[best.value]);
      }
      if maxSim < Threshold {
        dup := None;
      }
    }
  }

  /** For every parsed order, the stored order it duplicates, if any. */
  function Dups(orders: seq<OrderData>, all: seq<Order>): (ds: ImportHtml.DupTable)
    ensures |ds| == |orders|
  {
    if orders == [] then []
    else Dups(orders[..|orders| - 1], all) + [DupFor(all, orders[|orders| - 1])]
  }

  /** Each row of the duplicate table holds the duplicate found for that parsed order. */
  lemma {:induction false} DupsAt(orders: seq<OrderData>, all: seq<Order>, row: nat)
    requires row < |orders|
    ensures Dups(orders, all)[row] == DupFor(all, orders[row])
  {
    var init := orders[..|orders| - 1];
    var last := DupFor(all, orders[|orders| - 1]);
    var prev := Dups(init, all);
    assert Dups(orders, all) == prev + [last];
    if row < |init| {
      DupsAt(init, all, row);
      assert init[row] == orders[row];
      assert (prev + [last])[row] == prev[row];
    } else {
      assert (prev + [last])[row] == last;
    }
  }

  /** `_find_duplicates` (import_file_dialog.py:235-310). */
  method FindDuplicates(orders: seq<OrderData>, all: seq<Order>) returns (dups: ImportHtml.DupTable)
    ensures dups == Dups(orders, all)
  {
    dups := [];
    for row := 0 to |orders|
      invariant dups == Dups(orders[..row], all)
    {
      assert orders[..row + 1][..row] == orders[..row];
      var d := FindDuplicateFor(all, orders[row]);
      dups := dups + [d];
    }
    assert orders[..|orders|] == orders;
  }

  // =====================================================================
  // _import_selected
  // =====================================================================

  /** The button the user presses when selected rows are duplicates. */
  datatype DupAction = MergeExisting | ImportAsNew | SkipDuplicates | Cancel

  /** How a call of `_import_selected` ends. */
  datatype FileImportOutcome =
    | NoneSelected
    | Cancelled
    | Completed(imported: nat, updated: nat, skipped: nat)

  /** The description given to a row that has none. */
  function PlaceholderDescription(row: nat): (r: string)
  {
    "Articolo importato (riga " + NatToString(row + 1) + ")"
  }

  /**
   * The copy of a parsed order that is imported: a missing or empty date,
   * platform or description is replaced by today's date, "Sconosciuto" and
   * the placeholder naming the table row; every other key is kept.
   */
  function WithDefaults(d: OrderData, row: nat, today: Date): (r: OrderData)
    requires Valid(today)
    ensures HasRequiredKeys(r)
    ensures r.(orderDate := d.orderDate, platform := d.platform, description := d.description) == d
    ensures GetOr(d.orderDate, "") != "" ==> r.orderDate == d.orderDate
    ensures GetOr(d.orderDate, "") == "" ==> r.orderDate == Some(IsoFormat(today))
    ensures GetOr(d.platform, "") != "" ==> r.platform == d.platform
    ensures GetOr(d.platform, "") == "" ==> r.platform == Some("Sconosciuto")
    ensures GetOr(d.description, "") != "" ==> r.description == d.description
    ensures GetOr(d.description, "") == "" ==> r.description == Some(PlaceholderDescription(row))
  {
    d.(orderDate := if GetOr(d.orderDate, "") == "" then Some(IsoFormat(today)) else d.orderDate,
       platform := if GetOr(d.platform, "") == "" then Some("Sconosciuto") else d.platform,
       description := if GetOr(d.description, "") == "" then Some(PlaceholderDescription(row)) else d.description)
  }

  /** The effect of importing one selected row in range: the new table and which counter goes up. */
  datatype Tally = Tally(imported: nat, updated: nat, skipped: nat)

  /** `skipped += 1`. */
  function Skip(c: Tally): (r: Tally)
  {
    c.(skipped := c.skipped + 1)
  }

  /**
   * One pass of the import loop for table row `row`, from table `t` and
   * counters `c`: a row past the parsed orders is passed over; a duplicate
   * is skipped, merged into the order it duplicates, or imported as new
   * according to `action`; everything else is added. A merge or an add that
   * fails counts as skipped.
   */
  function ImportStep(t: Table, c: Tally, parsed: seq<OrderData>, row: nat, dups: ImportHtml.DupTable,
                      action: DupAction, today: Date): (r: (Table, Tally))
    requires Valid(today)
    ensures r.1.imported + r.1.updated + r.1.skipped
            == c.imported + c.updated + c.skipped + (if row < |parsed| then 1 else 0)
    ensures r.1.imported >= c.imported && r.1.updated >= c.updated && r.1.skipped >= c.skipped
    ensures TableValid(t) ==> TableValid(r.0)
    ensures |r.0.rows| == |t.rows| + (r.1.imported - c.imported)
    ensures forall k :: 0 <= k < |t.rows| ==> r.0.rows[k].id == t.rows[k].id
    ensures action != MergeExisting ==> r.1.updated == c.updated && r.0.rows[..|t.rows|] == t.rows
  {
    if row >= |parsed| then (t, c)
    else
      var order := WithDefaults(parsed[row], row, today);
      if ImportHtml.IsDup(dups, row) && action == SkipDuplicates then
        (t, c.(skipped := c.skipped + 1))
      else if ImportHtml.IsDup(dups, row) && action == MergeExisting then
        var m := MergeOrderInto(t, dups[row].value.id, order);
        MergeKeepsIds(t, dups[row].value.id, order);
        if m.1 then (m.0, c.(updated := c.updated + 1)) else (m.0, c.(skipped := c.skipped + 1))
      else
        var a := AddOrderTo(t, order);
        assert a.0.rows[..|t.rows|] == t.rows;
        var added := if a.1.Some? then 1 else 0;
        (a.0, Tally(c.imported + added, c.updated, c.skipped + (1 - added)))
  }

  /**
   * The table and the three counters after the import loop has run over
   * `sel`, starting from zero counters.
   */
  function ImportFileAll(t: Table, parsed: seq<OrderData>, sel: seq<nat>, dups: ImportHtml.DupTable,
                         action: DupAction, today: Date): (r: (Table, Tally))
    requires Valid(today)
    ensures r.1.imported + r.1.updated + r.1.skipped == |ImportHtml.InRange(sel, |parsed|)|
    ensures TableValid(t) ==> TableValid(r.0)
    ensures |r.0.rows| == |t.rows| + r.1.imported
    ensures forall k :: 0 <= k < |t.rows| ==> r.0.rows[k].id == t.rows[k].id
    ensures action != MergeExisting ==> r.1.updated == 0 && r.0.rows[..|t.rows|] == t.rows
  {
    if sel == [] then (t, Tally(0, 0, 0))
    else
      var prev := ImportFileAll(t, parsed, sel[..|sel| - 1], dups, action, today);
      var r := ImportStep(prev.0, prev.1, parsed, sel[|sel| - 1], dups, action, today);
      assert action != MergeExisting ==> r.0.rows[..|t.rows|] == prev.0.rows[..|prev.0.rows|][..|t.rows|];
      r
  }

  /** Importing duplicates as new never skips a row: every selected row in range becomes a new order. */
  lemma {:induction false} ImportAsNewAddsAll(t: Table, parsed: seq<OrderData>, sel: seq<nat>,
                                               dups: ImportHtml.DupTable, today: Date)
    requires Valid(today)
    ensures var r := ImportFileAll(t, parsed, sel, dups, ImportAsNew, today);
      r.1.skipped == 0 && r.1.imported == |ImportHtml.InRange(sel, |parsed|)|
  {
    if sel != [] {
      ImportAsNewAddsAll(t, parsed, sel[..|sel| - 1], dups, today);
    }
  }

  /** The selected rows in range that are duplicates. */
  function DupRows(sel: seq<nat>, n: nat, dups: ImportHtml.DupTable): (r: nat)
    ensures r <= |sel|
  {
    if sel == [] then 0
    else DupRows(sel[..|sel| - 1], n, dups)
         + (if sel[|sel| - 1] < n && ImportHtml.IsDup(dups, sel[|sel| - 1]) then 1 else 0)
  }

  /** Skipping duplicates skips exactly the selected duplicates and imports every other row. */
  lemma {:induction false} SkipCountsDuplicates(t: Table, parsed: seq<OrderData>, sel: seq<nat>,
                                                 dups: ImportHtml.DupTable, today: Date)
    requires Valid(today)
    ensures var r := ImportFileAll(t, parsed, sel, dups, SkipDuplicates, today);
      r.1.skipped == DupRows(sel, |parsed|, dups)
      && r.1.imported == |ImportHtml.InRange(sel, |parsed|)| - DupRows(sel, |parsed|, dups)
  {
    if sel != [] {
      SkipCountsDuplicates(t, parsed, sel[..|sel| - 1], dups, today);
    }
  }

  /** The body of the import loop of `_import_selected` for one table row. */
  method ImportOne(store: OrderStore, c: Tally, parsed: seq<OrderData>, row: nat, dups: ImportHtml.DupTable,
                   action: DupAction, today: Date) returns (tally: Tally)
    requires store.Valid() && Valid(today)
    modifies store
    ensures store.Valid()
    ensures (store.AsTable(), tally) == ImportStep(old(store.AsTable()), c, parsed, row, dups, action, today)
  {
    tally := c;
    if row >= |parsed| {
      return;
    }
    var order := WithDefaults(parsed[row], row, today);
    var isDup := row < |dups| && dups[row].Some?;
    if isDup {
      if action == SkipDuplicates {
        tally := tally.(skipped := tally.skipped + 1);
        return;
      } else if action == MergeExisting {
        var existingId := dups[row].value.id;
        var ok := store.MergeOrderData(existingId, order);
        if ok {
          tally := tally.(updated := tally.updated + 1);
        } else {
          tally := tally.(skipped := tally.skipped + 1);
        }
        return;
      }
    }
    var orderId := store.AddOrder(order);
    if orderId.Some? {
      tally := tally.(imported := tally.imported + 1);
    } else {
      tally := Skip(tally);
    }
  }

  /** The import loop of `_import_selected` (import_file_dialog.py:448-487). */
  method ImportRows(store: OrderStore, parsed: seq<OrderData>, sel: seq<nat>, dups: ImportHtml.DupTable,
                    action: DupAction, today: Date) returns (tally: Tally)
    requires store.Valid() && Valid(today)
    modifies store
    ensures store.Valid()
    ensures (store.AsTable(), tally) == ImportFileAll(old(store.AsTable()), parsed, sel, dups, action, today)
  {
    tally := Tally(0, 0, 0);
    for k := 0 to |sel|
      invariant store.Valid()
      invariant (store.AsTable(), tally) == ImportFileAll(old(store.AsTable()), parsed, sel[..k], dups, action, today)
    {
      assert sel[..k + 1][..k] == sel[..k];
      tally := ImportOne(store, tally, parsed, sel[k], dups, action, today);
    }
    assert sel[..|sel|] == sel;
  }

  /**
   * `_import_selected` (import_file_dialog.py:402-503). `choice` is the
   * button pressed in the duplicate dialog, which is shown only when a
   * selected row is a duplicate; otherwise rows are imported as new.
   */
  method ImportSelected(store: OrderStore, parsed: seq<OrderData>, checks: seq<bool>,
                        dups: ImportHtml.DupTable, choice: DupAction, today: Date) returns (outcome: FileImportOutcome)
    requires store.Valid() && Valid(today)
    modifies store
    ensures store.Valid()
    ensures ImportHtml.SelectedRows(checks) == [] ==> outcome == NoneSelected && store.AsTable() == old(store.AsTable())
    ensures outcome.Cancelled? <==>
      ImportHtml.SelectedRows(checks) != [] && (exists r :: r in ImportHtml.SelectedRows(checks) && ImportHtml.IsDup(dups, r)) && choice == Cancel
    ensures outcome.Cancelled? ==> store.AsTable() == old(store.AsTable())
    ensures outcome.Completed? ==>
      var action := if exists r :: r in ImportHtml.SelectedRows(checks) && ImportHtml.IsDup(dups, r) then choice else ImportAsNew;
      var r := ImportFileAll(old(store.AsTable()), parsed, ImportHtml.SelectedRows(checks), dups, action, today);
      store.AsTable() == r.0 && outcome == Completed(r.1.imported, r.1.updated, r.1.skipped)
  {
    var selectedRows := ImportHtml.CollectSelected(checks);
    if selectedRows == [] {
      return NoneSelected;
    }
    var selectedDups := exists r :: r in selectedRows && ImportHtml.IsDup(dups, r);
    var dupAction := ImportAsNew;
    if selectedDups {
      if choice == Cancel {
        return Cancelled;
      }
      dupAction := choice;
    }
    var tally := ImportRows(store, parsed, selectedRows, dups, dupAction, today);
    outcome := Completed(tally.imported, tally.updated, tally.skipped);
  }
}

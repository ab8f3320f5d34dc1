// email_manager.py, fetch_updates (lines 185-269): which IMAP folders are
// scanned, and the date token of the SEARCH SINCE request. The folder list
// arrives as the lines of a LIST response (section 7.2.2 of RFC 3501); the
// platforms come from the undelivered orders of the store.

module EmailFolders {
  import opened Text
  import opened Dates
  import opened Orders

  // =====================================================================
  // Active platforms
  // =====================================================================

  /** The set the loop over the undelivered orders builds: stripped, lower-cased, non-empty platforms. */
  function PlatformsOf(active: seq<Order>): (r: set<string>)
  {
    if active == [] then {}
    else
      var p := Lower(Strip(active[|active| - 1].platform));
      PlatformsOf(active[..|active| - 1]) + (if p != "" then {p} else {})
  }

  /** A platform is active exactly when some undelivered order names it (after trimming and lower-casing). */
  lemma {:induction false} PlatformsOfSpec(active: seq<Order>)
    ensures forall p :: p in PlatformsOf(active) <==> p != "" && exists o :: o in active && Lower(Strip(o.platform)) == p
  {
    if active != [] {
      var init := active[..|active| - 1];
      PlatformsOfSpec(init);
      assert forall o :: o in active <==> o in init || o == active[|active| - 1];
    }
  }

  /** The loop of fetch_updates that collects `active_platforms`. */
  method ActivePlatforms(active: seq<Order>) returns (platforms: set<string>)
    ensures platforms == PlatformsOf(active)
  {
    platforms := {};
    for k := 0 to |active|
      invariant platforms == PlatformsOf(active[..k])
    {
      assert active[..k + 1][..k] == active[..k];
      var p := Lower(Strip(active[k].platform));
      if p != "" {
        platforms := platforms + {p};
      }
    }
    assert active[..|active|] == active;
  }

  // =====================================================================
  // Folder names
  // =====================================================================

  /** `platform_aliases.get(plat, [plat])`: the folder-name fragments of a platform. */
  function Aliases(plat: string): (r: seq<string>)
    ensures |r| >= 1
  {
    if plat == "amazon" then ["amazon"]
    else if plat == "temu" then ["temu"]
    else if plat == "ebay" then ["ebay"]
    else if plat == "too good to go" then ["too good to go", "too good t go", "tgtg", "magico sacchetto"]
    else if plat == "aliexpress" then ["aliexpress", "cainiao"]
    else if plat == "vinted" then ["vinted"]
    else if plat == "shein" then ["shein"]
    else if plat == "poste italiane" then ["poste", "sda"]
    else if plat == "ups" then ["ups"]
    else if plat == "dhl" then ["dhl"]
    else if plat == "gls" then ["gls"]
    else if plat == "brt" then ["brt"]
    else [plat]
  }

  /** A platform outside the alias table is looked for under its own name. */
  lemma UnknownPlatformAlias(plat: string)
    requires plat !in {"amazon", "temu", "ebay", "too good to go", "aliexpress", "vinted", "shein",
                       "poste italiane", "ups", "dhl", "gls", "brt"}
    ensures Aliases(plat) == [plat]
  {
  }

  /** The index of the last `"` of `s` strictly before position `e`, if any. */
  function LastQuoteBefore(s: string, e: nat): (r: Option<nat>)
    requires e <= |s|
    ensures r.Some? ==> r.value < e && s[r.value] == '"' && forall k :: r.value < k < e ==> s[k] != '"'
    ensures r.None? ==> forall k :: 0 <= k < e ==> s[k] != '"'
  {
    if e == 0 then None
    else if s[e - 1] == '"' then Some(e - 1)
    else LastQuoteBefore(s, e - 1)
  }

  /**
   * `re.search(r'"([^"]+)"$', line)`: the text between the last two quotes
   * when the line ends with a quote (`$` also matches before a final
   * newline) and that text is not empty.
   */
  function QuotedTail(line: string): (r: Option<string>)
    ensures r.Some? ==> |r.value| > 0 && forall k :: 0 <= k < |r.value| ==> r.value[k] != '"'
  {
    var e := if |line| > 0 && line[|line| - 1] == '\n' then |line| - 1 else |line|;
    if e == 0 || line[e - 1] != '"' then None
    else
      match LastQuoteBefore(line, e - 1)
      case None => None
      case Some(j) => if j + 1 < e - 1 then Some(line[j + 1..e - 1]) else None
  }

  /** A quoted name at the end of a line is read back without its quotes. */
  lemma QuotedTailOfQuoted(prefix: string, name: string)
    requires |name| > 0 && forall k :: 0 <= k < |name| ==> name[k] != '"' && name[k] != '\n'
    ensures QuotedTail(prefix + "\"" + name + "\"") == Some(name)
  {
    var line := prefix + "\"" + name + "\"";
    var e := |line|;
    assert line[e - 1] == '"';
    var j := |prefix|;
    assert line[j] == '"';
    forall k | j < k < e - 1
      ensures line[k] != '"'
    {
      assert line[k] == name[k - j - 1];
    }
    assert LastQuoteBefore(line, e - 1) == Some(j) by {
      LastQuoteStops(line, e - 1, j);
    }
    assert line[j + 1..e - 1] == name;
  }

  lemma {:induction false} LastQuoteStops(s: string, e: nat, j: nat)
    requires j < e <= |s| && s[j] == '"' && forall k :: j < k < e ==> s[k] != '"'
    ensures LastQuoteBefore(s, e) == Some(j)
    decreases e
  {
    if e - 1 != j {
      LastQuoteStops(s, e - 1, j);
    }
  }

  /**
   * The folder name of one LIST line: the last `' "'`-separated part when
   * there are at least three, stripped of blanks and quotes; otherwise the
   * quoted tail; otherwise the last blank-separated word stripped of quotes.
   * None for a blank line, where `line.split()[-1]` raises IndexError.
   */
  function FolderName(line: string): (r: Option<string>)
  {
    var parts := Split(line, " \"");
    if |parts| >= 3 then Some(StripChar(Strip(parts[|parts| - 1]), '"'))
    else
      match QuotedTail(line)
      case Some(n) => Some(Strip(n))
      case None =>
        var words := WsFields(line);
        if words == [] then None else Some(StripChar(words[|words| - 1], '"'))
  }

  /** Only a line with no word at all is refused. */
  lemma FolderNameFails(line: string)
    ensures FolderName(line).None? ==> WsFields(line) == []
  {
  }

  /** `line.split()[-1].strip('"')` of the first line containing "inbox", or "INBOX". */
  function InboxName(lines: seq<string>): (r: string)
  {
    if lines == [] then "INBOX"
    else if Contains(Lower(lines[0]), "inbox") && WsFields(lines[0]) != [] then
      var words := WsFields(lines[0]);
      StripChar(words[|words| - 1], '"')
    else InboxName(lines[1..])
  }

  // =====================================================================
  // Folder selection
  // =====================================================================

  /** The generic fragments of order folders. */
  const OrderFolderWords: seq<string> := ["order", "ordine", "spedizion"]

  /**
   * A folder is scanned when its lower-cased name holds an alias of an
   * active platform, or, failing that, an order word while not being a
   * sub-folder of the inbox.
   */
  predicate FolderSelected(name: string, platforms: set<string>)
  {
    var lowerName := Lower(name);
    (exists p :: p in platforms && ContainsAny(lowerName, Aliases(p)))
    || (ContainsAny(lowerName, OrderFolderWords) && !Contains(lowerName, "inbox/"))
  }

  /** The folders of the LIST lines that pass the selection, in listing order; None when a line has no name. */
  function SelectedFolders(lines: seq<string>, platforms: set<string>): (r: Option<seq<string>>)
    ensures r.Some? ==> |r.value| <= |lines|
  {
    if lines == [] then Some([])
    else
      match SelectedFolders(lines[..|lines| - 1], platforms)
      case None => None
      case Some(init) =>
        match FolderName(lines[|lines| - 1])
        case None => None
        case Some(name) => Some(if FolderSelected(name, platforms) then init + [name] else init)
  }

  /** `list.remove(x)` when `x` is present: the first occurrence goes, the rest keeps its order. */
  function RemoveFirst(s: seq<string>, x: string): (r: seq<string>)
    ensures x in s ==> |r| == |s| - 1
    ensures x !in s ==> r == s
    ensures forall y :: y in r ==> y in s
  {
    if s == [] then []
    else if s[0] == x then s[1..]
    else [s[0]] + RemoveFirst(s[1..], x)
  }

  /** The cap on the folders scanned in one synchronisation. */
  const MaxFolders := 15

  /** The folders fetch_updates scans: the inbox first, then the other selected folders, at most 15 in all. */
  function FoldersToScan(lines: seq<string>, platforms: set<string>): (r: Option<seq<string>>)
  {
    match SelectedFolders(lines, platforms)
    case None => None
    case Some(sel) =>
      var inbox := InboxName(lines);
      var all := [inbox] + RemoveFirst(sel, inbox);
      Some(if |all| > MaxFolders then all[..MaxFolders] else all)
  }

  /**
   * The scan list always starts with the inbox, holds at most 15 folders,
   * and every other entry is a selected folder of the listing.
   */
  lemma FoldersToScanShape(lines: seq<string>, platforms: set<string>)
    ensures var r := FoldersToScan(lines, platforms);
      r.Some? <==> SelectedFolders(lines, platforms).Some?
    ensures var r := FoldersToScan(lines, platforms);
      r.Some? ==> 1 <= |r.value| <= MaxFolders && r.value[0] == InboxName(lines)
                  && forall k :: 1 <= k < |r.value| ==> r.value[k] in SelectedFolders(lines, platforms).value
  {
    match SelectedFolders(lines, platforms)
    case None =>
    case Some(sel) =>
      var inbox := InboxName(lines);
      var rest := RemoveFirst(sel, inbox);
      var all := [inbox] + rest;
      forall k | 1 <= k < |all|
        ensures all[k] in sel
      {
        assert all[k] == rest[k - 1];
      }
  }

  predicate Distinct(s: seq<string>)
  {
    forall i, j :: 0 <= i < j < |s| ==> s[i] != s[j]
  }

  lemma {:induction false} RemoveFirstDistinct(s: seq<string>, x: string)
    requires Distinct(s)
    ensures Distinct(RemoveFirst(s, x)) && x !in RemoveFirst(s, x)
  {
    if s != [] && s[0] != x {
      RemoveFirstDistinct(s[1..], x);
      var r := RemoveFirst(s, x);
      assert r == [s[0]] + RemoveFirst(s[1..], x);
      assert s[0] !in s[1..];
    }
  }

  /** When the listing names every folder once, no folder is scanned twice (the inbox included). */
  lemma NoFolderScannedTwice(lines: seq<string>, platforms: set<string>)
    requires SelectedFolders(lines, platforms).Some? && Distinct(SelectedFolders(lines, platforms).value)
    ensures Distinct(FoldersToScan(lines, platforms).value)
  {
    var sel := SelectedFolders(lines, platforms).value;
    var inbox := InboxName(lines);
    RemoveFirstDistinct(sel, inbox);
    var all := [inbox] + RemoveFirst(sel, inbox);
    assert Distinct(all);
  }

  /** The collection loop over the LIST lines. */
  method CollectFolders(lines: seq<string>, platforms: set<string>) returns (r: Option<seq<string>>)
    ensures r == SelectedFolders(lines, platforms)
  {
    var folders: seq<string> := [];
    for k := 0 to |lines|
      invariant SelectedFolders(lines[..k], platforms) == Some(folders)
    {
      assert lines[..k + 1][..k] == lines[..k];
      var name := FolderName(lines[k]);
      if name.None? {
        assert SelectedFolders(lines[..k + 1], platforms).None?;
        NoneStaysNone(lines, platforms, k + 1);
        return None;
      }
      if FolderSelected(name.value, platforms) {
        folders := folders + [name.value];
      }
    }
    assert lines[..|lines|] == lines;
    r := Some(folders);
  }

  lemma {:induction false} NoneStaysNone(lines: seq<string>, platforms: set<string>, k: nat)
    requires k <= |lines| && SelectedFolders(lines[..k], platforms).None?
    ensures SelectedFolders(lines, platforms).None?
    decreases |lines| - k
  {
    if k < |lines| {
      assert lines[..k + 1][..k] == lines[..k];
      NoneStaysNone(lines, platforms, k + 1);
    } else {
      assert lines[..k] == lines;
    }
  }

  /** The whole folder choice of fetch_updates: collect, put the inbox first, cap at 15. */
  method ChooseFolders(lines: seq<string>, platforms: set<string>) returns (r: Option<seq<string>>)
    ensures r == FoldersToScan(lines, platforms)
  {
    var sel := CollectFolders(lines, platforms);
    if sel.None? {
      return None;
    }
    var folders := sel.value;
    var inbox := InboxName(lines);
    if inbox in folders {
      folders := RemoveFirst(folders, inbox);
    }
    folders := [inbox] + folders;
    if |folders| > MaxFolders {
      folders := folders[..MaxFolders];
    }
    r := Some(folders);
  }

  // =====================================================================
  // The SINCE date
  // =====================================================================

  /** `f"{d.day:02d}-{months_en[d.month-1]}-{d.year}"` of the day 30 days before today. */
  function SinceToken(today: Date): (r: string)
    requires Valid(today) && Ordinal(today) > 30
  {
    ImapDate(MinusDays(today, 30))
  }

  /**
   * The SINCE token is a `date` of the IMAP grammar (section 9 of RFC 3501)
   * naming the day exactly 30 days before today.
   */
  lemma SinceTokenMeaning(today: Date)
    requires Valid(today) && Ordinal(today) > 30 && MinusDays(today, 30).year >= 1000
    ensures ParseImapDate(SinceToken(today)).Some?
    ensures Ordinal(ParseImapDate(SinceToken(today)).value) == Ordinal(today) - 30
  {
    ImapDateRoundTrip(MinusDays(today, 30));
  }
}

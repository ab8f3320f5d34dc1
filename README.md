# Delivery tracker: order inference and reconciliation, in Dafny

This project models the logic of the delivery tracker that turns pasted shop
pages and incoming e-mails into order records, and merges those records into
the order store without losing data. The model covers:

- **E-mail reconciliation** (`email_manager.py`):
  - the status ladder and the upgrade gate;
  - the decisions taken inside `fetch_updates`: which folders are scanned, the IMAP `SINCE` token, which subjects count, the carrier, the shop order number, the tracking number and the status cascade;
  - the match-and-merge loop of `sync_with_db` over an in-memory order store.
- **HTML order parser** (`html_order_parser.py`):
  - `_clean_html`;
  - platform and page-type detection;
  - order-number extraction and de-duplication;
  - calendar-checked date extraction;
  - the four per-shop item extractors with their placeholder fallbacks;
  - assembly of the result in `parse_with_meta`.
- **Order store** (`database.py`):
  - the non-destructive `merge_order_data`;
  - the `WHERE` filter of `get_orders`, including `LIKE` search;
  - the column defaults of `add_order` and `update_order`.
- **Import dialogs** (`gui/import_file_dialog.py`, `gui/import_html_dialog.py`):
  - duplicate detection by shop order number, tracking number and description similarity;
  - checkbox pre-selection;
  - the import tallies.
- **Utilities** (`utils.py`): the validators, the date classification relative to a given `today`, and the counters of `calculate_stats`.

Modules, one per file:

| module | file | models |
|---|---|---|
| `StatusHierarchy` | status_hierarchy.dfy | `STATUS_HIERARCHY` and `_is_status_upgrade` |
| `Orders` | orders.dfy | the stored row (`Order`) and the dictionary passed to the store (`OrderData`) |
| `Text`, `Dates` | text.dfy, dates.dfy | the Python string and `datetime.date` operations the source relies on |
| `Database` | database.dfy | the store as a class over a sequence of rows |
| `EmailClassify`, `EmailFolders`, `EmailSync` | email_*.dfy | `fetch_updates` and `sync_with_db` |
| `HtmlClean`, `HtmlOrderIds`, `HtmlItems`, `HtmlParser` | html_*.dfy | the HTML parser |
| `ImportFile`, `ImportHtml` | import_*.dfy | the two import dialogs |
| `Utils` | utils.dfy | `Validator`, `DateHelper`, `StatisticsCalculator` |

Modelling choices:

- **The clock.** The current date and time are parameters: `today`, `now`, `stamp` and `noteDate`.
- **Regular expressions.**
  - Fixed-shape patterns are explicit scanners, with Python's leftmost-first and greedy behaviour written out. These are the Amazon, eBay, Temu and AliExpress order numbers, the e-mail order numbers, the `d/m/y` date of an e-mail snippet, the HTML tag patterns, and the LIST-line quoting.
  - Free-form scans are inputs: the groups a pattern finds in a page are a `Matches`/`PageScan` value handed to the model. Examples are product titles, seller and quantity phrases, date phrases, the generic order-number pattern and tracking candidates.
- **Lower-casing** is `str.lower` on ASCII and Latin-1.
- **Python whitespace** is an explicit character set. The word characters of `\w` are a subset of Python's: ASCII and Latin letters up to U+024F, digits and `_` (see "## Left out").
- **`price`**, a REAL column, is held as an optional whole number of hundredths (`Option<int>`). The program only asks whether it is NULL and whether it is zero, so its fractional value plays no part.

## Model

| member | source | states |
|---|---|---|
| StatusHierarchy.Rank | email_manager.py:34-43 | ranks lie in 0..5; rank 5 exactly for the three terminal labels; rank 0 exactly for labels outside the table and for "In Attesa" |
| StatusHierarchy.EmptyNeverUpgrades | email_manager.py:49-50 | a missing or empty new status is never an upgrade |
| StatusHierarchy.AnyStatusOverMissing | email_manager.py:51-53 | a missing current status counts as "In Attesa", so any non-empty status may replace it |
| StatusHierarchy.UpgradeReflexive | email_manager.py:46-53 | the gate is reflexive on non-empty labels |
| StatusHierarchy.UpgradeTransitive | email_manager.py:46-53 | the gate is transitive |
| StatusHierarchy.UpgradeTotal | email_manager.py:46-53 | any two non-empty labels are comparable: the gate is a total preorder |
| StatusHierarchy.TerminalStaysTerminal | email_manager.py:34-53 | after Consegnato, Rimborsato or Annullato only those three labels pass the gate |
| StatusHierarchy.ProblemOnlyEarly | email_manager.py:34-53 | "Problema/Eccezione" passes only over a status of rank at most 1 |
| StatusHierarchy.UpgradeKeepsRank | email_manager.py:636-637 | applying the gate never lowers the stored rank |
| Orders.AsData | email_manager.py:631 | the dictionary of a stored row carries the three required keys |
| Orders.InsertedRow | database.py:161-180 | add_order's row: every optional key takes its default, e-mail bookkeeping columns empty |
| Orders.UpdatedRow | database.py:278-300 | update_order's row: the same defaults, bookkeeping columns written from the dictionary |
| Orders.UpdateWithOwnData | database.py:270-300 | writing a row's own dictionary back leaves the row unchanged |
| Orders.InsertDefaults | database.py:161-180 | a dictionary with only the required keys gets seller "", quantity 1, alarm on, undelivered, "In Attesa" |
| Database.WithField | database.py:337 | setting one merge field changes that field and no other |
| Database.FillFieldsValue | database.py:330-338 | after the fill loop a listed field holds the new value exactly when that is truthy and the stored one blank |
| Database.FillFieldsKeepsOthers | database.py:330-338 | the fill loop changes no column outside the merge list, nor status, quantity or notes |
| Database.FillFieldsNoop | database.py:330-338 | when no step of the loop changes a value, the record comes out unchanged |
| Database.MergedQuantity | database.py:347-351 | the merged quantity is at least the stored one and the new one (default 1), and is one of them |
| Database.MergedNotes | database.py:353-360 | when notes are appended the result contains the stripped new notes |
| Database.MergeRecord | database.py:321-361 | the loop-built record and changes flag equal the merge specification |
| Database.FillLoop | database.py:330-338 | the loop over `fields_to_merge` computes the fill specification and its changed flag |
| Database.MergeFillsOnlyBlank | database.py:330-338 | a listed field takes the new value only if that is truthy and the stored one blank |
| Database.MergeKeepsFilled | database.py:330-338 | a non-blank stored value survives any merge |
| Database.MergeKeepsUnmerged | database.py:321-361 | description, platform, order date, delivered flag, e-mail bookkeeping and the other unlisted columns never change |
| Database.MergeQuantityIsMax | database.py:347-351 | the merged quantity is the maximum of the stored and the new quantity |
| Database.MergeNotesAppendOnly | database.py:353-360 | stored notes stay a prefix; nothing is appended when the new text is already there |
| Database.NoChangeNoDifference | database.py:362-365 | without changes the merged record is the stored record itself |
| Database.MergedFieldsSettled | database.py:330-338 | after one merge no listed field would be filled again |
| Database.MergedNotesSettled | database.py:353-360 | after one merge the new notes are already contained |
| Database.MergeIdempotent | database.py:330-361 | merging the same data twice gives the record of merging it once |
| Database.SqlFoldString | database.py:208-209 | SQLite's ASCII case folding, position by position |
| Database.LikeTrailingPercent | database.py:209 | the pattern `%` matches every text |
| Database.LikePrefix | database.py:209 | `q%` matches exactly the texts starting with `q`, ignoring ASCII case, when `q` has no wildcard |
| Database.LikeIsSubstring | database.py:207-210 | `%q%` matches exactly the texts containing `q`, ignoring ASCII case, when `q` has no wildcard |
| Database.BuildWhere | database.py:201-218 | the conjunction of the clauses appended holds exactly for the rows matching the query; at most four clauses |
| Database.Select | database.py:201-224 | the rows returned are exactly the stored rows satisfying the filter |
| Database.SelectActiveOnly | database.py:204-205 | with include_delivered false no delivered row is returned |
| Database.SelectAll | database.py:192-224 | without filters every row is returned |
| Database.SelectSubsequence | database.py:201-224 | every returned row is a stored row |
| Database.FindById | database.py:233-240 | the row with that id when there is one, none otherwise |
| Database.ReplaceById | database.py:270-300 | the rows with that id are replaced, all others kept in place |
| Database.ReplaceKeepsValid | database.py:270-300 | replacing a row by id keeps ids unique and below the next id |
| Database.AddOrderTo | database.py:147-188 | a dictionary lacking order_date, platform or description yields None and no row; otherwise one row appended under the next id |
| Database.UpdateOrderIn | database.py:247-309 | update succeeds exactly when the required keys are present and then rewrites the row with that id |
| Database.MergeOrderInto | database.py:311-370 | False and no change for a missing order; otherwise True, and the merged row written only when something changed |
| Database.MergeKeepsIds | database.py:311-370 | a merge never adds or removes a row and keeps every id |
| Database.OrderStore.AddOrder | database.py:147-188 | the store after add_order is the table of AddOrderTo; ids stay unique |
| Database.OrderStore.UpdateOrder | database.py:247-309 | the store after update_order is the table of UpdateOrderIn |
| Database.OrderStore.MergeOrderData | database.py:311-370 | the store after merge_order_data is the table of MergeOrderInto |
| EmailClassify.OrderSubjectRelevant | email_manager.py:351-354 | any subject mentioning "order" is kept whatever the folder |
| EmailClassify.SearchId | email_manager.py:425-429 | a found number is a match of the pattern in the text; none exactly when the pattern matches nowhere |
| EmailClassify.AmazonNumberFound | email_manager.py:425 | an Amazon number `ddd-ddddddd-ddddddd` present in the text is found |
| EmailClassify.SiteIdPrecedence | email_manager.py:431-442 | Amazon numbers beat Temu, Temu beats eBay, eBay beats the Too Good To Go code; the winner sets the carrier |
| EmailClassify.FirstTrackingSpec | email_manager.py:452-462 | the tracking number is the first candidate, in pattern then text order, that is not inside the order number and is in the subject or hinted |
| EmailClassify.FirstTrackingExtend | email_manager.py:452-453 | once a tracking number is found later patterns change nothing |
| EmailClassify.PickTracking | email_manager.py:444-462 | the nested loop with its two breaks picks the tracking of the specification |
| EmailClassify.ScanMatches | email_manager.py:454-462 | the inner loop stops at the first acceptable match |
| EmailClassify.FlattenPrefix | email_manager.py:452-453 | a tracking number found among the first patterns is the final one |
| EmailClassify.ProblemOverrides | email_manager.py:515-516 | a problem word anywhere yields "Problema/Eccezione" |
| EmailClassify.SubjectBeforeBody | email_manager.py:473-485 | without a problem word a status named by the subject wins over the body |
| EmailClassify.ConfirmationIgnoresBodyDelivery | email_manager.py:481-490 | a confirmation subject never turns a body delivery phrase into "Consegnato" |
| EmailClassify.TgtgAlwaysHasStatus | email_manager.py:501-509 | Too Good To Go mail always ends with "Consegnato" or "In Transito" (unless a problem word overrides) |
| EmailClassify.StatusIsALabel | email_manager.py:470-516 | the cascade yields no status or one of five ladder labels |
| EmailClassify.ClassifyStatus | email_manager.py:470-516 | the step-by-step reassignment of `status` computes the cascade specification |
| EmailClassify.TgtgWordingSetsCarrier | email_manager.py:412-416 | Too Good To Go wording makes it the carrier unless a shop number names another |
| EmailClassify.Snippet | email_manager.py:527 | the snippet is the prefix of at most 1000 characters of the body |
| EmailClassify.ExtractUpdate | email_manager.py:403-529 | the update record built for one e-mail carries the classified carrier, numbers, status and snippet |
| EmailFolders.PlatformsOfSpec | email_manager.py:182-186 | a platform is active exactly when some undelivered order names it, trimmed and lower-cased, non-empty |
| EmailFolders.ActivePlatforms | email_manager.py:183-186 | the loop collects exactly that set |
| EmailFolders.Aliases | email_manager.py:193-206 | every platform has at least one folder fragment |
| EmailFolders.UnknownPlatformAlias | email_manager.py:234 | a platform outside the alias table is looked for under its own name |
| EmailFolders.QuotedTail | email_manager.py:221-223 | the quoted tail is non-empty and holds no quote |
| EmailFolders.QuotedTailOfQuoted | email_manager.py:221-223 | a quoted name ending a line is read back without its quotes |
| EmailFolders.FolderNameFails | email_manager.py:215-226 | only a line with no word at all yields no folder name |
| EmailFolders.SelectedFolders | email_manager.py:211-245 | the selection holds at most one folder per LIST line |
| EmailFolders.RemoveFirst | email_manager.py:249-250 | `list.remove` drops exactly the first occurrence when present |
| EmailFolders.FoldersToScanShape | email_manager.py:247-255 | the scan list starts with the inbox, has at most 15 entries, and every other entry is a selected folder |
| EmailFolders.NoFolderScannedTwice | email_manager.py:247-255 | when the listing names every folder once, no folder is scanned twice |
| EmailFolders.CollectFolders | email_manager.py:211-245 | the loop over the LIST lines computes the selection specification |
| EmailFolders.ChooseFolders | email_manager.py:211-255 | collecting, inbox first and cap at 15 compute the scan list specification |
| EmailFolders.SinceTokenMeaning | email_manager.py:265-269 | the SINCE token is a date of the IMAP grammar naming exactly the day 30 days before today |
| Dates.OrdinalOrder | utils.py:115-128 | day ordinals order dates as Python compares them, so days_until is negative exactly for past dates |
| Dates.MinusDays | email_manager.py:268 | `d - timedelta(days=n)` is a valid date n ordinals earlier |
| Dates.IsoRoundTrip | html_order_parser.py:257-301 | reading back what `isoformat()` wrote gives the same date |
| Dates.ImapDateRoundTrip | email_manager.py:267-269 | the `dd-Mon-yyyy` token is read back by the RFC 3501 date grammar as the same date |
| EmailSync.PassAppends | email_manager.py:570-590 | a key pass only appends and keeps `matched_ids` the ids of the matched orders, each once |
| EmailSync.PassCovers | email_manager.py:570-590 | after a pass every order carrying the key is matched |
| EmailSync.FirstDescribedSpec | email_manager.py:592-599 | the fallback finds the first order whose non-empty lowered description occurs in subject or snippet |
| EmailSync.KeyMatchedSpec | email_manager.py:570-590 | the key passes collect orders named by the shop or tracking number, each once, and all of them |
| EmailSync.MatchedOrdersSpec | email_manager.py:565-599 | matched orders have unique ids; with a key match they are exactly the key-matched orders, otherwise at most one described order |
| EmailSync.SharedShopNumberMatchesAll | email_manager.py:562-579 | two orders sharing a shop order number both receive the update |
| EmailSync.RunPass | email_manager.py:571-590 | one pass loop computes the pass specification |
| EmailSync.MatchOrders | email_manager.py:565-599 | the three matching loops compute the matched orders |
| EmailSync.FirstFromSpec | email_manager.py:614 | a leftmost search returns the match at the first position that has one, and finds nothing only when no position matches |
| EmailSync.FirstDmySpec | email_manager.py:614 | the date search returns the leftmost `d/m/y` match |
| EmailSync.TwoDigitYearEstimate | email_manager.py:617-620 | a snippet opening `dd/mm/yy` gives the estimate `20yy-mm-dd` |
| EmailSync.DmyReadsAsIso | email_manager.py:614-620 | a date written `%d/%m/%Y` is read back as its ISO form |
| EmailSync.NoSeparatorNoEstimate | email_manager.py:614-616 | a snippet without `/` or `-` yields no estimate |
| EmailSync.RefreshedStatus | email_manager.py:635-648 | the stored rank never decreases; an upgrade is taken; "Consegnato" sets the delivered flag |
| EmailSync.SubjectDelivers | email_manager.py:644-648 | without an extracted status a delivery subject delivers an order not past that step |
| EmailSync.RefreshedFillsBlanks | email_manager.py:650-658 | shop number, tracking and carriers are only filled in when blank, never overwritten |
| EmailSync.RefreshedKeeps | email_manager.py:631-666 | old notes stay a prefix and the subject is appended; the estimate changes only for undelivered orders; the e-mail id and sync time are recorded; other columns stay |
| EmailSync.WriteMatched | email_manager.py:623-670 | one inner pass skips an order that saw this e-mail, else writes the refreshed row and counts it |
| EmailSync.ApplyMatched | email_manager.py:622-670 | the inner loop applies the update to every matched order in turn |
| EmailSync.SyncWithDb | email_manager.py:543-672 | the store and count after the loop are those of matching every update against the snapshot read before the loop |
| EmailSync.ApplyAllRows | email_manager.py:622-670 | over current rows the writes for one update rewrite exactly the matched rows not yet holding the e-mail, nothing else |
| EmailSync.ApplyAllSeen | email_manager.py:625-626 | an update every matched row already recorded writes nothing and counts nothing |
| EmailSync.StaleSnapshotUndoesDelivery | email_manager.py:556-668 | as written, a later e-mail in the same run writes the stale copy back and undoes the delivery |
| EmailSync.SyncFreshProgress | email_manager.py:556-668 | with the active orders re-read per update, statuses only climb, deliveries stay and notes are kept |
| EmailSync.FreshRunKeepsDelivery | email_manager.py:556-668 | the re-reading run keeps the delivery of the same scenario |
| HtmlClean.SubTagFree | html_order_parser.py:77-78 | after the tag substitution no tag remains |
| HtmlClean.Untagged | html_order_parser.py:71-78 | the text after dropping scripts, styles and tags is tag-free |
| HtmlClean.ReplacedGone | html_order_parser.py:86-87 | replacing an entity by a character it lacks removes every occurrence |
| HtmlClean.EntityGone | html_order_parser.py:80-87 | after the replacement loop no entity but `&amp;` occurs |
| HtmlClean.AmpDecodedFirst | html_order_parser.py:80-87 | `&amp;` is decoded first, so `&amp;lt;` becomes `<` |
| HtmlClean.CollapseNoDoubleSpace | html_order_parser.py:91 | collapsing runs of spaces and tabs leaves no two spaces in a row |
| HtmlClean.TidyClean | html_order_parser.py:91 | a tidied line is empty or clean: no tab, no double space, no padding |
| HtmlClean.DecodeEntities | html_order_parser.py:80-87 | the replacement loop computes the decoding specification |
| HtmlClean.KeepLines | html_order_parser.py:89-93 | the line loop keeps exactly the non-blank tidied lines in order |
| HtmlClean.CleanHtml | html_order_parser.py:67-95 | `_clean_html` computes the cleaned text specification |
| HtmlClean.CleanedLines | html_order_parser.py:67-95 | the cleaned text splits back into the kept lines, none empty, padded, tabbed or double-spaced |
| HtmlClean.CleanedEntities | html_order_parser.py:67-95 | no cleaned line holds any of the seven entities after `&amp;` |
| HtmlOrderIds.MatchShaped | html_order_parser.py:146-159 | every match has the shape of its pattern |
| HtmlOrderIds.AmazonNumberListed | html_order_parser.py:147 | an Amazon number standing alone in the text is found |
| HtmlOrderIds.GluedAmazonNumberSkipped | html_order_parser.py:147 | digits glued to a letter are not an Amazon number |
| HtmlOrderIds.TradeIds | html_order_parser.py:158-159 | every AliExpress `tradeOrderId` group is 15 to 20 digits |
| HtmlOrderIds.GenericIdsSpec | html_order_parser.py:162-171 | the fallback keeps exactly the trimmed, non-blank groups that are not interface words |
| HtmlOrderIds.DedupSpec | html_order_parser.py:173 | de-duplication keeps each element once, loses none and keeps first-seen order |
| HtmlOrderIds.ExtractOrderIdsSpec | html_order_parser.py:143-173 | the result is duplicate-free, loses no candidate and keeps first-seen order |
| HtmlOrderIds.FallbackIdsClean | html_order_parser.py:162-173 | when the platform patterns find nothing, only clean non-interface groups are returned |
| HtmlOrderIds.AmazonIdsShaped | html_order_parser.py:146-147 | Amazon numbers found have the Amazon shape |
| HtmlItems.KeptSound | html_order_parser.py:322-329 | kept items are acceptable candidates with distinct descriptions, at most the limit |
| HtmlItems.KeptComplete | html_order_parser.py:322-355 | below the limit no acceptable description is missed |
| HtmlItems.KeepDistinct | html_order_parser.py:322-355 | the append-if-unseen loop computes the keep specification |
| HtmlItems.FillSeller | html_order_parser.py:365-366 | every item with an empty seller gets the found seller, the others keep theirs |
| HtmlItems.SetQuantity | html_order_parser.py:553-559 | every item gets the quantity and nothing else changes |
| HtmlItems.QuantitiesFromDescriptions | html_order_parser.py:369-373 | each item whose description names a quantity takes it, the others keep theirs |
| HtmlItems.AmazonTiersSpec | html_order_parser.py:316-356 | items found have distinct descriptions and no seller yet |
| HtmlItems.ExtractItemsAmazon | html_order_parser.py:308-375 | the Amazon extractor computes the item specification |
| HtmlItems.AmazonItemsSpec | html_order_parser.py:308-375 | never empty; the placeholder with the seller exactly when no tier found anything; otherwise the found items in order |
| HtmlItems.AmazonItemsAsWritten | html_order_parser.py:330-341 | as written the image tier raises; when it returns, it returns the corrected result |
| HtmlItems.AmazonAltRaises | html_order_parser.py:330-341 | a page with no title and one image alt raises as written and yields the alt text once corrected |
| HtmlItems.AmazonAltsKept | html_order_parser.py:330-341 | corrected, every non-blank decoded alt text becomes an item |
| HtmlItems.ExtractItemsTemu | html_order_parser.py:378-464 | the Temu extractor computes the item specification |
| HtmlItems.TemuFoundSpec | html_order_parser.py:384-462 | Temu items have distinct descriptions, seller Temu, and are goods-list objects or else long DOM texts |
| HtmlItems.TemuItemsSpec | html_order_parser.py:464 | never empty; the placeholder exactly when nothing was found |
| HtmlItems.CutAtStopSpec | html_order_parser.py:473-482 | the search area is a prefix of the page, cut where the first listed stop word occurs |
| HtmlItems.SortByScoreSpec | html_order_parser.py:538 | the sorted candidates are a permutation, highest score first |
| HtmlItems.SortedHeadIsBest | html_order_parser.py:538 | the first sorted candidate has the highest score |
| HtmlItems.ExtractItemsAliExpress | html_order_parser.py:467-561 | the AliExpress extractor computes the item specification |
| HtmlItems.AliSelection | html_order_parser.py:540-551 | one or two distinct items are kept, the first a best-scored candidate |
| HtmlItems.AliItemsSpec | html_order_parser.py:467-561 | one or two items, distinct, seller AliExpress, the first of highest score; placeholder exactly without candidates |
| HtmlItems.ExtractItemsGeneric | html_order_parser.py:564-591 | the generic extractor computes the item specification |
| HtmlItems.GenericTitlesSpec | html_order_parser.py:569-580 | each title is a trimmed match among the first five of its pattern, longer than five characters |
| HtmlItems.GenericItemsSpec | html_order_parser.py:564-591 | never empty, at most five items, quantity 1 and the found seller; placeholder exactly without titles |
| HtmlParser.DetectPlatformSpec | html_order_parser.py:98-120 | the platform is the first in priority order whose marker occurs; "Altro" exactly when none occurs |
| HtmlParser.DetectPageTypeSpec | html_order_parser.py:123-140 | only Temu and Amazon pages are told apart; each kind exactly when its markers occur |
| HtmlParser.ExtractStatus | html_order_parser.py:228-233 | every pasted page starts as "In Attesa" |
| HtmlParser.MakeDate | html_order_parser.py:257-301 | a date exactly when the day, month and year form a real calendar date |
| HtmlParser.DateIn | html_order_parser.py:238-305 | any chosen date is a real calendar date |
| HtmlParser.DateInFirst | html_order_parser.py:238-305 | the date is that of the first pattern yielding a real date; none exactly when none does |
| HtmlParser.ExtractDateReadable | html_order_parser.py:238-305 | the ISO text returned reads back to the chosen date |
| HtmlParser.WordDateInCurrentYear | html_order_parser.py:245-259 | a day and month name without year is that day of the current year |
| HtmlParser.TwoDigitYear | html_order_parser.py:277-286 | a two-digit numeric year is read as 2000 plus it |
| HtmlParser.ImpossibleDateSkipped | html_order_parser.py:250-262 | "31 febbraio 2025" yields no date and the next pattern is tried |
| HtmlParser.ItemsForNonEmpty | html_order_parser.py:730-737 | every extractor returns at least one item |
| HtmlParser.FirstFoundSpec | html_order_parser.py:702-720 | the first value found is the first entry holding one |
| HtmlParser.DateFromPhrases | html_order_parser.py:702-706 | the phrase loop with its break returns the first date found |
| HtmlParser.BuildOrders | html_order_parser.py:743-766 | the results loop builds one dictionary per item in order |
| HtmlParser.ParseWithMeta | html_order_parser.py:612-768 | `parse_with_meta` computes the parse specification |
| HtmlParser.Parse | html_order_parser.py:604-610 | `parse` returns the orders of `parse_with_meta` |
| HtmlParser.BlankPage | html_order_parser.py:621-622 | a blank paste yields no orders, platform "Sconosciuto", page type unknown, no warning |
| HtmlParser.ListPage | html_order_parser.py:632-659 | a list page yields no orders and the Temu or Amazon hint as warning |
| HtmlParser.SharedDatesReadable | html_order_parser.py:687-742 | every date the page yields, and today's, is a readable ISO date |
| HtmlParser.RowsFields | html_order_parser.py:744-766 | each dictionary has the required keys, the page's shared values and its item's own |
| HtmlParser.DetailPage | html_order_parser.py:661-768 | one order per item, at least one, no warning; each "In Attesa", undelivered, alarm on, with its item's fields, order id `order_ids[i]` or the primary id, and a readable order date |
| HtmlParser.DistinctSiteIds | html_order_parser.py:743-746 | while there are ids enough, the orders of a page get pairwise different order ids |
| HtmlParser.ParsedRowsAllImported | html_order_parser.py:747-766 | every selected row of a parsed page is added by the import dialog; none skipped |
| ImportFile.Tokens | gui/import_file_dialog.py:245-249 | tokens are words longer than one character |
| ImportFile.TokensIgnoreCase | gui/import_file_dialog.py:248 | the text and its lower-cased form give the same tokens |
| ImportFile.Similarity | gui/import_file_dialog.py:251-255 | non-negative, and zero when either set is empty |
| ImportFile.SimilarityFacts | gui/import_file_dialog.py:251-255 | the similarity is symmetric and at most 1 |
| ImportFile.SimilaritySelf | gui/import_file_dialog.py:251-255 | a non-empty token set is fully similar to itself |
| ImportFile.CandidatesSpec | gui/import_file_dialog.py:263-273 | the candidates are exactly the stored orders with an equal non-empty trimmed id or tracking |
| ImportFile.CandidatesOrder | gui/import_file_dialog.py:263-273 | the candidates keep store order: a matching order stored earlier is an earlier candidate |
| ImportFile.ArgMaxIsMax | gui/import_file_dialog.py:278-284 | the search ends on the largest similarity |
| ImportFile.ArgMaxPick | gui/import_file_dialog.py:278-284 | the pick is the first strictly best candidate, or none when nothing beats the start |
| ImportFile.DupByShipment | gui/import_file_dialog.py:275-291 | an id or tracking match always yields a duplicate. It is a matching order of largest similarity, and every matching order stored before it is strictly less similar |
| ImportFile.ShipmentPickFirst | gui/import_file_dialog.py:278-284 | the strict `>` search picks the first candidate of largest similarity in store order |
| ImportFile.DupByDescription | gui/import_file_dialog.py:293-305 | without an id match a duplicate is reported exactly when some description reaches 0.6, and it is the first best one |
| ImportFile.NoWordsNoMatch | gui/import_file_dialog.py:294 | a description without words and no id match never yields a duplicate |
| ImportFile.CollectCandidates | gui/import_file_dialog.py:264-273 | phase 1 loop computes the candidates |
| ImportFile.PickBest | gui/import_file_dialog.py:278-284 | the max-similarity loop computes the arg-max specification |
| ImportFile.FindDuplicateFor | gui/import_file_dialog.py:257-308 | the loop body computes the duplicate of one parsed order |
| ImportFile.DupsAt | gui/import_file_dialog.py:257-310 | each row of the duplicate table holds that row's duplicate; keys are row indices |
| ImportFile.FindDuplicates | gui/import_file_dialog.py:235-310 | `_find_duplicates` computes the duplicate table |
| ImportFile.WithDefaults | gui/import_file_dialog.py:458-465 | missing date, platform and description become today, "Sconosciuto" and "Articolo importato (riga N)"; nothing else changes |
| ImportFile.ImportAsNewAddsAll | gui/import_file_dialog.py:452-487 | importing duplicates as new adds every selected row in range |
| ImportFile.SkipCountsDuplicates | gui/import_file_dialog.py:467-472 | skipping skips exactly the selected duplicates and imports the rest |
| ImportFile.ImportOne | gui/import_file_dialog.py:453-487 | one pass increments exactly one counter; skip never writes |
| ImportFile.ImportRows | gui/import_file_dialog.py:448-487 | the loop computes the import specification over the selected rows |
| ImportFile.ImportSelected | gui/import_file_dialog.py:402-503 | nothing without a selection or on cancel; otherwise the rows are imported with the chosen action |
| ImportHtml.FirstSameShipmentAt | gui/import_html_dialog.py:243-253 | the first match is the only index matching with none before it |
| ImportHtml.DupsSpec | gui/import_html_dialog.py:240-253 | a row is a duplicate exactly when some stored order shares its trimmed id or tracking, paired with the first such order |
| ImportHtml.FindFirstSameShipment | gui/import_html_dialog.py:243-253 | the inner loop with its break computes the first match |
| ImportHtml.FindDuplicates | gui/import_html_dialog.py:235-254 | `_find_duplicates` computes the duplicate table |
| ImportHtml.BlankNeverDuplicate | gui/import_html_dialog.py:247-250 | blank ids and trackings never make a duplicate |
| ImportHtml.InitialChecks | gui/import_html_dialog.py:272-281 | a checkbox is checked exactly for a row that is not a duplicate |
| ImportHtml.PreselectIffNew | gui/import_html_dialog.py:272-281 | a row starts checked iff no stored order shares its id or tracking |
| ImportHtml.SelectedRows | gui/import_html_dialog.py:343-348 | the selected rows are exactly the checked indices, increasing |
| ImportHtml.CollectSelected | gui/import_html_dialog.py:343-348 | the comprehension computes the selected rows |
| ImportHtml.ImportAll | gui/import_html_dialog.py:378-389 | imported plus skipped is the number of selected rows within the parsed orders |
| ImportHtml.ImportRows | gui/import_html_dialog.py:378-389 | the import loop computes the import specification |
| ImportHtml.ImportSelected | gui/import_html_dialog.py:343-397 | nothing without a selection or confirmation; otherwise every selected row is added |
| ImportHtml.ImportTally | gui/import_html_dialog.py:378-389 | imported plus skipped equals the selected rows in range |
| ImportHtml.ImportAllComplete | gui/import_html_dialog.py:380-388 | rows carrying the required keys are all imported, none skipped |
| Utils.ValidateUrl | utils.py:65-69 | true exactly for the empty text or an http/https address |
| Utils.ParseIntOfDecimal | utils.py:75 | `int(str(n))` is n |
| Utils.ValidateQuantity | utils.py:72-80 | (True, v) exactly when the text parses to v > 0; otherwise (False, None) |
| Utils.QuantityAcceptsPositive | utils.py:72-80 | every positive count in decimal is accepted as itself; its negation is refused |
| Utils.ValidateDate | utils.py:83-89 | an accepted date is a real calendar date |
| Utils.ValidateDateAcceptsIso | utils.py:83-89 | an ISO-written date is accepted as that date |
| Utils.MissingFields | utils.py:92-95 | the missing fields are exactly the required ones that are absent or falsy |
| Utils.MissingFieldsSubsequence | utils.py:92-95 | the missing fields keep the order of `required` |
| Utils.ValidateRequiredFields | utils.py:92-95 | ok exactly when no required field is missing |
| Utils.IsOverdue | utils.py:120-123 | overdue exactly when days until the target are negative |
| Utils.IsDueToday | utils.py:125-128 | due today exactly when days until the target are zero |
| Utils.IsUpcoming | utils.py:130-133 | an upcoming target is neither overdue nor due today (the exact range 0 < days until ≤ threshold is stated by GetDateStatus) |
| Utils.GetDateStatus | utils.py:136-144 | exactly one of overdue, due today, upcoming, normal, tested in that order |
| Utils.DateStatusMonotone | utils.py:136-144 | a later target never gets an earlier status |
| Utils.ClassifyDate | utils.py:271-281 | the date test of the loop body computes the date class |
| Utils.CalculateStats | utils.py:254-292 | total, delivered, pending = total − delivered, the date counters and the platform counts |
| Utils.PlatformCountsSumToTotal | utils.py:264-269 | each platform is counted once, with its number of orders, and the counts sum to total |
| Utils.DateCountersBounded | utils.py:271-281 | overdue + due today + upcoming ≤ undelivered orders with a parseable date |
| Utils.PendingIsUndelivered | utils.py:256-258 | pending counts the undelivered orders exactly |

## Left out

- HtmlItems.ExtractItemsAmazon / HtmlItems.AmazonItemsSpec / HtmlParser.ItemsForNonEmpty / HtmlParser.ParseWithMeta / HtmlParser.DetailPage: these use the corrected image tier of the Amazon extractor. The program as written raises AttributeError at html_order_parser.py:338 on an Amazon page where no item title qualifies and an item-image alt matches. The exception leaves `parse_with_meta` and ends in the import worker's error path (gui/import_html_dialog.py:33-37). So "at least one item" and "one order per item" hold of the corrected parser only. The as-written extractor and its failure are HtmlItems.AmazonItemsAsWritten and HtmlItems.AmazonAltRaises (see "## Findings").
- ImportFile.Tokens / Text.IsWordChar: the word characters of `\w` stop at U+024F. Python's `\w` on text also takes every other Unicode letter, digit and combining mark: Greek, Cyrillic, CJK, `²`, `½`. So a description written only in such a script has no tokens here. Two equal descriptions of that kind are a duplicate by similarity 1.0 in the program but not in the model (ImportFile.DupFor, ImportFile.DupByDescription). The `\b` tests of the HtmlOrderIds scanners use the same narrower set.
- Utils.ValidateQuantity / Utils.ParseInt: only ASCII digits `0`-`9` are read. Python's `int()` also accepts every other Unicode decimal digit, e.g. `int('３') == 3`, so `validate_quantity('３')` is `(True, 3)` in the program and refused here. Dates.ParseIsoDate, Utils.ValidateDate and the `\d` of the id and date scanners have the same ASCII-only restriction; Python's `\d` matches every Unicode decimal digit.
- IMAP, OAuth and SQLite I/O are left out. This covers connecting, select/search/fetch, MIME walking, header decoding, and executing SQL. The store is an in-memory sequence of rows.
- The tag removal `re.sub('<[^<]+?>', '', body)` of email_manager.py:398 is left out. The e-mail `body` of EmailClassify is the text after that substitution, given as an input.
- Orders.InsertedRow / Database.AddOrderTo / Database.UpdateOrderIn: a Python None under `order_date`, `platform` or `description` is held as "", so the model writes a row with an empty value. The program violates the NOT NULL constraint of those columns (database.py:58-62), catches the error and returns None from add_order (database.py:187-189) or False from update_order (database.py:306-308). No caller in the modelled core passes None there: the file import fills all three (gui/import_file_dialog.py:458-465), `parse_with_meta` sets them, and the e-mail sync passes a stored row.
- The clock is not modelled. `date.today()` and `datetime.now()` are parameters.
- Free-form regular-expression scans are inputs, not computed. This covers product titles, seller and quantity phrases, date phrases, the generic order-number pattern, the Amazon shipment status, and tracking candidates. `_extract_tracking` of the parser is not part of this model, so its result is an input.
- Lower-casing covers ASCII and Latin-1 only. Case mappings that change length and non-Latin-1 letters are not modelled.
- `html.unescape` beyond the eight entities of `_clean_html` is not modelled. Neither is the `unicode_escape` decoding of AliExpress JSON names.
- `get_orders` ordering (`ORDER BY created_at DESC, estimated_delivery ASC`) is not modelled; rows keep store order.
- Utils.CalculateStats leaves out the floating-point `delivery_rate`.
- ImportFile.Similarity uses an exact rational ratio, not a Python float, so float rounding is left out. The thresholds 0.2 and 0.6 compare exactly.
- Database.MergeOrderInto does not model the exception paths of `merge_order_data` (database.py:348-370). Each of them is caught and returns False, with the row left unwritten:
  - a `None` under `notes` in the new data raises AttributeError at `None.strip()` (line 353);
  - non-empty new notes over stored NULL notes raise TypeError at `new_notes not in None` (line 354);
  - a `None` quantity on either side raises TypeError at the `>` comparison (line 349).
  Order data holds a missing text value as "" and a NULL column as "". So in those cases the model returns True and can count an update, where the program returns False and the file import counts a skip (gui/import_file_dialog.py:475-478).
- The path where `fetch_updates` fails its LIST command is left out. There `len(folder_list)` is taken on a failed result.
- Logging and message boxes are left out. The dialog choice and the confirmation are parameters.
- The month-name table of `_extract_date` is given as data. It is not checked against an independent list of Italian and English month names.
- The default warning of a list page for shops other than Temu and Amazon is modelled but cannot occur, because only those two shops are ever list pages (HtmlParser.ListPage).
- Sort stability of the AliExpress candidates is not stated. The model proves descending order and permutation only.

## Findings

| source | as written | input that shows it | evidently intended | confidence | as-written member | corrected member |
|---|---|---|---|---|---|---|
| email_manager.py:556-668 | every update is matched and merged against the active orders read once before the loop, so a second e-mail for the same order starts from the stale copy | an undelivered order at "Spedito"; e-mail 1 says delivered, then e-mail 2 in the same run matches the same order with no status | each update sees the row as written by earlier updates; the delivery stays and its note is kept | not executed | EmailSync.StaleSnapshotUndoesDelivery | EmailSync.SyncFreshProgress |
| html_order_parser.py:338 | `html.unescape(alt)` looks up `unescape` on the `str` parameter `html` of `_extract_items_amazon` (line 308); the file never imports the `html` module, and `str` has no `unescape`, so the call raises AttributeError | an Amazon page with no `itemTitle` component and one `itemImage` alt "Zaino nero" | the alt texts are unescaped and become items | not executed | HtmlItems.AmazonAltRaises | HtmlItems.AmazonAltsKept |

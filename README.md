# Domain portfolio back office, modelled in Dafny

This project models the server of a domain-portfolio back office. The server keeps one
`Domain` record per registered domain name. It reconciles that record with three outside
sources:

- the Namecheap registrar API, for the registrar fields and the expiry date;
- DNS, for the two name servers;
- the Trust Positif ("Nawala") content-filter site of the Indonesian government, for the
  blocked flag.

Around that sit:

- a bulk "mark as used" upload;
- the sync log;
- the registrar credentials singleton;
- the authentication guards and the login service;
- the CRUD services for users, roles, whitelisted IPs, domain groups, cPanel accounts and
  WordPress sites;
- the exception filter that shapes every error reply.

## Layout

Each source file of the core is one module. A module is pure or imperative as its source
is.

| module | file | models |
|---|---|---|
| `Wrappers` | wrappers.dfy | `Option`, `Result`, `Patch` (a key absent vs. present), and the failures the services throw |
| `Text` | text.dfy | the JavaScript string operations used: `trim`, ASCII `toLowerCase`, `split`/`join`, `String(n)`, `parseInt` |
| `Js` | js.dfy | parsed JSON/XML values, truthiness, `??`, logical or, `Number()` and `ensureArray` |
| `Table` | table.dfy | a table as rows in ascending id order, with `findOne({ id })`, insert, delete and in-place update |
| `Accounts` | accounts.dfy | the user and role entities and their link table |
| `DomainModel` | domain_model.dfy | the `Domain` entity, `parseExpires`/`formatExpires`, `toResponse` |
| `SyncLog` | sync_log.dfy | the append-only sync log and its latest-timestamp-per-kind lookup |
| `DomainOrder`, `DomainListing` | domain_order.dfy, domain_listing.dfy | `findAll`'s filters, ordering and page arithmetic |
| `RegistrarSync` | registrar_sync.dfy | the registrar page loop and the per-item match-and-merge of `syncFromNamecheap` |
| `NameServers` | name_servers.dfy | the name-server lookup and the per-row refresh |
| `NawalaMerge` | nawala_merge.dfy | the results map with its "www." alias and the write-only-on-change merge |
| `BulkMarkUsed` | bulk_mark_used.dfy | the file's names and the `isUsed` marking |
| `NawalaScript` | nawala_script.dfy | the classification of the external Nawala script's outcome |
| `Domains` | domain_service.dfy | `DomainService`: a class over the domain table and the sync log, whose methods run the loops above |
| `TrustPositifForm`, `TrustPositif`, `TrustPositifScript` | trust_positif_form.dfy, trust_positif.dfy, trust_positif_script.dfy | the Trust Positif client in the service and in the stand-alone fetch script |
| `NamecheapConfig`, `Namecheap` | namecheap_config.dfy, namecheap.dfy | the credentials singleton and the registrar client on the parsed XML tree |
| `DomainController` | domain_controller.dfy | the controller's upload, secret and error-wrapping gates |
| `Auth`, `IpWhitelistGuard`, `RolesGuard`, `JwtAuthGuard` | auth_service.dfy, ip_whitelist_guard.dfy, roles_guard.dfy, jwt_auth_guard.dfy | login, refresh and the three guards |
| `Users`, `Roles`, `WhitelistedIps`, `DomainGroups`, `Cpanels`, `WordPress`, `WordPressController` | user_service.dfy … wordpress_controller.dfy | the CRUD services, each a class over its table |
| `HttpExceptionFilter` | http_exception_filter.dfy | the status and error body sent for each exception |

## How the outside world enters

Each outside interaction is a parameter: a function from the request to the answer, or
`Err`. This covers:

- the registrar's pages;
- a DNS lookup;
- an HTTP GET or POST;
- a Trust Positif batch check;
- the spawned script's result;
- bcrypt's compare;
- JWT signing and verifying.

"now" is also a parameter. The model states what the code decides from those answers.

The model follows the code in these places:

- A direct call of `findAll` whose query has no `limit` gets no limit, no offset and no page
  count: the checked value is not the one assigned. The one route that calls it never does
  this. The validation pipe fills in page 1 and limit 10 when they are absent, and admits
  only 10, 50 or 100.
- A single name-server record clears the second name server.
- `reactivate` and `renew` refresh from page 1 only, from the first item matching by name
  or by registrar id. The sync itself gives the registrar id precedence.
- An unparsable expiry ends the sync after the earlier items were written.
- `nawala-apply` ignores the secret it is sent.
- The fetch script accepts answers that the service rejects as incomplete.

## Model

| member | source | states |
|---|---|---|
| DomainModel.NumberOf | src/domain/domain.service.ts:32 | `Number` of a date component: a trimmed run of digits reads as its decimal value |
| DomainModel.NumberOfFraction | src/domain/domain.service.ts:32 | digits with a decimal point read as all the digits scaled down by the digits after the point |
| DomainModel.NumberOfExponent | src/domain/domain.service.ts:32 | digits, "e" and digits read as the first digits times that power of ten |
| DomainModel.NumberOfHex | src/domain/domain.service.ts:32 | "0x" and hexadecimal digits read as their value |
| DomainModel.NumberOfSigned | src/domain/domain.service.ts:32 | a leading "-" or "+" before digits gives their value with that sign |
| DomainModel.DigitsValueConcat | src/domain/domain.service.ts:32 | the value of two digit strings written one after the other is the first shifted by the length of the second, plus the second |
| DomainModel.NewDate | src/domain/domain.service.ts:33 | `new Date(yyyy, mm - 1, dd)`, when it is a date, has the year (0 to 99 moved to 1900 to 1999), month and day cut toward zero to whole numbers |
| DomainModel.CalendarDayInRange | src/domain/domain.service.ts:33-34 | every day of a month from year 0 to year 275759 is inside the time-value range |
| DomainModel.YearsPastRange | src/domain/domain.service.ts:33-34 | no day of a year from 275761 on is inside it |
| DomainModel.RangeEnd | src/domain/domain.service.ts:33-34 | the range ends on 13 September 275760: that day is inside, the next is not |
| DomainModel.ParseExpires | src/domain/domain.service.ts:31-36 | a failure always carries the message "Invalid expires date: " followed by the input |
| DomainModel.ParseExpiresFails | src/domain/domain.service.ts:31-36 | `parseExpires` fails exactly when there are fewer than three `/`-pieces, one of the first three is not a finite number, or the day lies outside the time-value range; otherwise it is the `new Date` of the three numbers |
| DomainModel.NewDateOfWhole | src/domain/domain.service.ts:33 | `new Date` of three whole numbers is the day they name, with the year moved from 0–99 to the 1900s, or no date when that day is outside the time-value range |
| DomainModel.ParseOfWholePieces | src/domain/domain.service.ts:31-36 | pieces reading as whole numbers parse to that month, day and year inside the time-value range and fail with "Invalid expires date" outside it |
| DomainModel.SameMonthSameParse | src/domain/domain.service.ts:32-33 | two month pieces that `new Date` cuts to the same month give the same parse |
| DomainModel.ParseOfPieces | src/domain/domain.service.ts:31-36 | three pieces free of `/`, joined with `/`, parse as `new Date` of their numbers, or fail when one is not finite |
| DomainModel.ParseOfJoin | src/domain/domain.service.ts:32-33 | three digit strings joined with `/` parse as month, day and year, failing exactly when that day lies outside the time-value range |
| DomainModel.FractionalMonthTruncated | src/domain/domain.service.ts:32-34 | a month written with one decimal place parses exactly as its whole part does |
| DomainModel.DistantYearFails | src/domain/domain.service.ts:33-35 | a date whose year is 275761 or later throws, however well formed the month and day |
| DomainModel.ParseFormatRoundTrip | src/domain/domain.service.ts:31-44 | reading back a formatted calendar date gives the same date |
| DomainModel.FormatInjective | src/domain/domain.service.ts:39-44 | distinct calendar dates never format to the same MM/DD/YYYY text |
| DomainModel.ToResponse | src/domain/domain.service.ts:90-145 | the id is written in decimal and reads back as the row id; name, description, nawala and isUsed are copied; a relation appears only when the row has one |
| DomainModel.NameServersListed | src/domain/domain.service.ts:91-93 | the response lists exactly the non-empty stored name servers, at most two, nameServer1 first |
| SyncLog.Code | src/domain/sync-log.entity.ts:4-8 | each kind is stored as a code from 1 to 3 |
| SyncLog.CodeInjective | src/domain/sync-log.entity.ts:4-8 | no two kinds share a code |
| SyncLog.Latest | src/domain/domain.service.ts:263-279 | `None` exactly when the kind was never logged; otherwise a logged timestamp of that kind that no other entry of the kind exceeds |
| SyncLog.GetSyncMetadata | src/domain/domain.service.ts:257-281 | each of the three fields is the latest timestamp of its own kind |
| SyncLog.Record | src/domain/domain.service.ts:426-433 | `recordSync` appends exactly one entry and keeps the earlier log as it was |
| SyncLog.RecordThenLatest | src/domain/domain.service.ts:426-433 | after recording a kind at a time no earlier than its previous entries, that time is its latest, and every other kind's latest is unchanged |
| DomainOrder.StrCompare | src/domain/domain.service.ts:222-225 | the name order compares by code point: zero exactly for equal strings |
| DomainOrder.StrCompareAntisymmetric | src/domain/domain.service.ts:222-225 | swapping the two names negates the comparison |
| DomainOrder.BeforeTotal | src/domain/domain.service.ts:222-234 | of any two rows, one may come first under every `orderBy` the listing builds |
| DomainOrder.Sort | src/domain/domain.service.ts:222-241 | the rows in `orderBy` order: a permutation of the input, sorted by the keys |
| DomainListing.PageOf | src/domain/domain.service.ts:171 | the page is the requested one when at least 1, else 1 |
| DomainListing.LimitOf | src/domain/domain.service.ts:172-174 | a page size, when there is one, is 10, 50 or 100 |
| DomainListing.LimitCases | src/domain/domain.service.ts:172-174 | an allowed limit is kept, a disallowed one becomes 10, and an absent one stays undefined |
| DomainListing.TotalPagesIsCeiling | src/domain/domain.service.ts:243 | the page count is the least number of `limit`-row pages that hold every row |
| DomainListing.RowOnOnePage | src/domain/domain.service.ts:239-243 | every row position lies on exactly one page between 1 and the page count, inside that page's offset window |
| DomainListing.Window | src/domain/domain.service.ts:236-241 | with a limit and offset, at most `limit` rows starting at the offset; with both undefined, every row |
| DomainListing.SearchIsSubstring | src/domain/domain.service.ts:178-180 | for a search without `%`, `_` or a backslash, `ILIKE '%search%'` is a case-insensitive substring test |
| DomainListing.Filter | src/domain/domain.service.ts:176-220 | a row is kept exactly when it passes every filter of the query |
| DomainListing.OrderKeys | src/domain/domain.service.ts:222-234 | the first sort key goes in the requested direction, ascending by default |
| DomainListing.Responses | src/domain/domain.service.ts:246 | one response per row, in order, each the row's `toResponse` with its group |
| DomainListing.FindAll | src/domain/domain.service.ts:164-254 | total counts the matching rows; page, limit and page count come from the paging rules; the data is the selected window rendered |
| DomainListing.FindAllSound | src/domain/domain.service.ts:176-241 | every listed row was in the table and passes the filters, the rows are in key order, and a page never holds more than the limit |
| DomainListing.NoLimitListsAll | src/domain/domain.service.ts:172-174 | with no limit given, every matching row is listed |
| RegistrarSync.FetchStopsAtShortPage | src/domain/domain.service.ts:313-324 | when pages p to q-1 are full and page q is the first short one, the fetch yields every item of pages p to q in order |
| RegistrarSync.FetchFailsAtFailedPage | src/domain/domain.service.ts:320-324 | when the request for a page after full pages fails, the whole fetch fails with that error |
| RegistrarSync.FirstWithNamecheapId | src/domain/domain.service.ts:330-332 | the first row carrying the registrar id, or none when no row does |
| RegistrarSync.FirstWithName | src/domain/domain.service.ts:333-334 | the first row with the name, or none when no row has it |
| RegistrarSync.MatchIndex | src/domain/domain.service.ts:330-334 | a matched row carries the item's registrar id or its name |
| RegistrarSync.MatchPrecedence | src/domain/domain.service.ts:330-334 | with a non-empty id that some row carries, the first such row wins even over an earlier name match; otherwise the name decides |
| RegistrarSync.Refreshed | src/domain/domain.service.ts:338-351 | a registrar update keeps every user-owned field (description, name servers, nawala, isUsed, cpanel, category, group, flags) |
| RegistrarSync.NewRowDefaults | src/domain/domain.service.ts:355-376 | an inserted row holds every registrar field of the item, with description, name servers, cpanel, group and category null and nawala, isUsed, isDefense and isLinkAlt false |
| RegistrarSync.RefreshedHoldsItem | src/domain/domain.service.ts:338-350 | an updated row holds every registrar field of the item, with active the negation of isExpired |
| RegistrarSync.Apply | src/domain/domain.service.ts:329-380 | each item adds one to added + updated; the table grows by one row exactly when an item is added; ids keep ascending below the next id |
| RegistrarSync.ApplyMergeSafety | src/domain/domain.service.ts:338-379 | a merge changes only the matched row, keeping its user fields, or appends one new row; every other row is untouched |
| RegistrarSync.Expiries | src/domain/domain.service.ts:336 | each item's expiry is `parseExpires` of its Expires text, failing with that text |
| RegistrarSync.SyncItemsCounts | src/domain/domain.service.ts:326-382 | every item before the first unparsable Expires counts once as added or updated, that item stops the run with its parse error, and ids keep ascending |
| RegistrarSync.SyncMakesPresent | src/domain/domain.service.ts:329-380 | after a complete run over items with distinct ids and names, every item is in the table under its id and name |
| RegistrarSync.PresentMeansNoInsert | src/domain/domain.service.ts:329-380 | when every item is already present, a run inserts nothing |
| RegistrarSync.SettledApplyIsCount | src/domain/domain.service.ts:330-351 | merging an item into the row its registrar id finds, when that row already holds the item, changes no row and counts one update |
| RegistrarSync.ApplySettles | src/domain/domain.service.ts:329-380 | after an item with a registrar id is merged, that id finds a row holding the item |
| RegistrarSync.ApplyKeepsSettled | src/domain/domain.service.ts:329-380 | merging an item with another id and name keeps a settled item settled |
| RegistrarSync.SyncKeepsSettled | src/domain/domain.service.ts:326-382 | a run over other items keeps a settled item settled |
| RegistrarSync.SyncSettles | src/domain/domain.service.ts:326-382 | after a complete run over items with distinct non-empty ids and names, every item parsed and its id finds a row holding it |
| RegistrarSync.SettledSyncIsCount | src/domain/domain.service.ts:326-382 | a run over items that are all settled leaves rows and next id as they were and counts each item as updated |
| RegistrarSync.SyncIdempotent | src/domain/domain.service.ts:313-383 | a second sync over the same list completes, inserts nothing, updates every item again and leaves every row and the next id exactly as the first sync left them |
| RegistrarSync.FindItem | src/domain/domain.service.ts:442 | the first item matching the row by name or by registrar id; a row without a registrar id matches by name only |
| RegistrarSync.RefreshedStatus | src/domain/domain.service.ts:444-451 | reactivate and renew copy expiry, isExpired, isLocked, autoRenew, whoisGuard, isPremium and isOurDns from the item, with active the negation of isExpired, and never the registrar id, name, user, creation date or any user-owned field |
| NameServers.LookupNameservers | src/domain/domain.service.ts:21-28 | one name per NS record, with exactly one trailing dot removed where there is one; a failed lookup gives none |
| NameServers.RefreshRow | src/domain/domain.service.ts:400-405 | an empty answer leaves the row as it was; otherwise nameServer1 is the first record and nameServer2 the second or null |
| NameServers.RefreshAll | src/domain/domain.service.ts:396-410 | every row is refreshed from the lookup of its own name, and the row count is unchanged |
| NameServers.RefreshOnlyNameServers | src/domain/domain.service.ts:402-405 | a refresh touches only the two name-server fields |
| NameServers.NoClobber | src/domain/domain.service.ts:402-405 | an empty or failed lookup never clears stored values; a lookup with records always leaves a first name server |
| NameServers.SingleRecordClearsSecond | src/domain/domain.service.ts:401-404 | a single NS record sets nameServer1 and clears nameServer2 |
| NameServers.RefreshAllIdempotent | src/domain/domain.service.ts:396-410 | refreshing again with the same DNS answers changes nothing more |
| NawalaMerge.KeyAll | src/domain/domain.service.ts:673 | each result keyed by its lower-cased, trimmed domain, in order |
| NawalaMerge.AddResult | src/domain/domain.service.ts:673-676 | recording a result sets its own key and its "www."-stripped key to its verdict, and no other key changes |
| NawalaMerge.FoldAppend | src/domain/domain.service.ts:668-678 | recording the results batch by batch is recording their concatenation |
| NawalaMerge.FoldIsVerdict | src/domain/domain.service.ts:719-725 | the map holds, for every key, the verdict of the last result that sets it, and no key that no result sets |
| NawalaMerge.LookupKey | src/domain/domain.service.ts:682-684 | a row finds the verdict under its own key first, then under its "www."-stripped key |
| NawalaMerge.AliasBothWays | src/domain/domain.service.ts:673-684 | a result is found under its own key and under the key without "www.", and a row "www.x" finds a result for "x" |
| NawalaMerge.MergeRow | src/domain/domain.service.ts:684-688 | nawala becomes the found verdict when there is one; nothing else changes |
| NawalaMerge.MergeAll | src/domain/domain.service.ts:681-689 | used rows are merged, unused rows are left as they are |
| NawalaMerge.WritesWithinUsed | src/domain/domain.service.ts:680-699 | the writes counted never exceed the used rows checked |
| NawalaMerge.MergeChangesOnlyNawala | src/domain/domain.service.ts:681-689 | only nawala changes, only on used rows whose verdict was found and differs, and those rows are exactly the counted ones |
| NawalaMerge.MergeIdempotent | src/domain/domain.service.ts:729-737 | merging the same verdicts a second time changes nothing and counts no write |
| NawalaMerge.UsedRows | src/domain/domain.service.ts:656-659 | exactly the used rows, one per used row |
| NawalaMerge.UsedNames | src/domain/domain.service.ts:703-709 | one name per used row, in ascending name order; a name is listed exactly when some used row has it |
| BulkMarkUsed.LineKeyIsNameKey | src/domain/domain.service.ts:749-757 | a line trimmed then lower-cased keys the same way as a row name lower-cased then trimmed |
| BulkMarkUsed.Cleaned | src/domain/domain.service.ts:749 | the trimmed, lower-cased lines with blank ones dropped: a name appears exactly when some line keys to it |
| BulkMarkUsed.Dedupe | src/domain/domain.service.ts:749 | `[...new Set(s)]`: no duplicates, the same members, never longer |
| BulkMarkUsed.NamesOf | src/domain/domain.service.ts:748-749 | the distinct non-blank keyed lines; a name is among them exactly when some line keys to it |
| BulkMarkUsed.RowKeys | src/domain/domain.service.ts:756-757 | each row keyed by its lower-cased, trimmed name |
| BulkMarkUsed.FirstIndex | src/domain/domain.service.ts:755-759 | the map keeps the first row per key: the least index with that key, none when absent |
| BulkMarkUsed.MarkUsed | src/domain/domain.service.ts:761-768 | the marking never changes the number of rows |
| BulkMarkUsed.Matched | src/domain/domain.service.ts:771 | matched counts the names some row carries, at most the number of names |
| BulkMarkUsed.UpdatedWithinMatched | src/domain/domain.service.ts:761-772 | updated ≤ matched ≤ number of distinct names |
| BulkMarkUsed.MarkUsedMonotone | src/domain/domain.service.ts:761-768 | only isUsed changes, only from false to true, only on the first row of a named key, and every such row ends used |
| BulkMarkUsed.NoNamesNoMarks | src/domain/domain.service.ts:750-752 | a file without names marks nothing |
| BulkMarkUsed.MarkUsedIdempotent | src/domain/domain.service.ts:761-768 | uploading the same file again marks nothing more and counts no update |
| NawalaScript.FailureDetail | src/domain/domain.service.ts:626-631 | SIGKILL has its own message, another signal is named, otherwise the exit code is |
| NawalaScript.OutputSnippet | src/domain/domain.service.ts:632 | at most 400 characters; empty when both outputs are; the one non-empty output alone otherwise |
| NawalaScript.FirstMatch | src/domain/domain.service.ts:637 | the leftmost position where the marker is followed by at least one non-terminator |
| NawalaScript.RestOfLine | src/domain/domain.service.ts:637 | the `(.+)` group: the longest run of non-terminators, ending at a terminator or the end |
| NawalaScript.Captured | src/domain/domain.service.ts:637-638 | a captured result text is never empty |
| NawalaScript.Classify | src/domain/domain.service.ts:611-648 | a timeout, a spawn error, a non-zero exit or signal (with its snippet) and a missing result line each give their own message; success needs none of them |
| NawalaScript.ReadCounts | src/domain/domain.service.ts:642-647 | invalid JSON (or null) gives the invalid-JSON message; otherwise the counts are `Number(field) \|\| 0` |
| NawalaScript.CapturedIsFirstCompleteLine | src/domain/domain.service.ts:637-641 | no result is captured exactly when no marker is followed by a non-empty rest of line |
| Domains.IndexOfId | src/domain/domain.service.ts:299-302 | `findOne({ id })`: the position of the row with that id, none exactly when no row has it |
| Domains.Refetched | src/domain/domain.service.ts:441-454 | a failed list fails; no match leaves the row as it was; a refreshed row keeps its id, name, registrar id, nawala and every user-owned field |
| Domains.RenewOptionsFor | src/domain/domain.service.ts:461-463 | renew passes the row's premium flag, false when unknown, and no price or promotion code |
| Domains.InfoOf | src/domain/domain.service.ts:487-496 | the row's response next to the registrar status ("" when absent) and the dates of DomainDetails, undefined without that node |
| Domains.CreatedRow | src/domain/domain.service.ts:499-522 | the given fields, active defaulting to true and isUsed to false, every registrar field empty and every flag off |
| Domains.UpdatedRow | src/domain/domain.service.ts:524-546 | fields checked with `!= null` are written only when given; fields checked with `!== undefined` are written even when null; registrar fields and nawala never change |
| Domains.NoChangesKeepsRow | src/domain/domain.service.ts:527-543 | an update with nothing provided changes nothing |
| Domains.UpdateIdempotent | src/domain/domain.service.ts:527-543 | applying the same update twice is applying it once |
| Domains.CronCountsBounded | src/domain/domain.service.ts:712-741 | updated ≤ checked ≤ number of rows |
| Domains.InProcessCountsBounded | src/domain/domain.service.ts:652-700 | on success, checked is the number of used rows and updated ≤ checked |
| Domains.NawalaPathsAgree | src/domain/domain.service.ts:652-741 | once the batches of used names came back, the in-process check leaves the same rows, log and counts as applying those results from the cron script |
| Domains.MergeKeepsUsed | src/domain/domain.service.ts:681-689 | merging verdicts changes no row's isUsed |
| Domains.CronApplyIdempotent | src/domain/domain.service.ts:712-741 | applying the same results again changes no row, counts no write and checks the same rows |
| Domains.FindsOwnRow | src/domain/domain.service.ts:299-302 | with ascending ids, looking up a row's id finds that row |
| Domains.CreatedIsFound | src/domain/domain.service.ts:499-522 | after create, ids still ascend and the new id finds the new row |
| Domains.RemovedIsGone | src/domain/domain.service.ts:561-565 | after remove, the removed id finds nothing and every other row is still found |
| Domains.FindItemByKeys | src/domain/domain.service.ts:442 | which item a row finds depends only on its name and registrar id |
| Domains.RefetchTwiceIsOnce | src/domain/domain.service.ts:441-454 | refreshing a row twice from the same list is refreshing it once |
| Domains.DomainService.FindOne | src/domain/domain.service.ts:299-305 | NotFound with the Indonesian message exactly when no row has the id; otherwise that row's response with its loaded group and cPanel |
| Domains.DomainService.Metadata | src/domain/domain.service.ts:257-281 | each timestamp is null exactly when its kind was never logged |
| Domains.DomainService.FetchAllPages | src/domain/domain.service.ts:314-324 | the do-while loop yields the pages up to the first short one, or the first failure |
| Domains.DomainService.SyncFromNamecheap | src/domain/domain.service.ts:313-383 | the rows, next id and counts are those of merging the fetched items in order; a failed fetch changes nothing |
| Domains.DomainService.MergeItems | src/domain/domain.service.ts:326-382 | the loop leaves the rows and counts of merging the items one by one, stopping at the first unparsable Expires with earlier items kept |
| Domains.DomainService.RefreshNameServers | src/domain/domain.service.ts:390-413 | every row refreshed from its own lookup in batches of 50, the count being the number of rows |
| Domains.DomainService.RunNameServerRefresh | src/domain/domain.service.ts:419-424 | the refresh, then exactly one NameServerRefresh log entry |
| Domains.DomainService.DomainSync | src/domain/domain.service.ts:287-296 | a failed fetch changes nothing; otherwise the result is an error exactly when some item's expiry does not parse, and then the rows are those the sync wrote before it and nothing is logged; a complete sync leaves the rows refreshed with their name servers, logs one DomainSync entry, and reports the sync's added and updated counts with nsUpdated the number of rows |
| Domains.DomainService.RefreshFromFirstPage | src/domain/domain.service.ts:441-454 | the row becomes its refetched version and the response is of that version; a failure leaves the table unchanged |
| Domains.DomainService.RefreshFrom | src/domain/domain.service.ts:442-454 | the same refresh, on an already fetched list |
| Domains.DomainService.Reactivate | src/domain/domain.service.ts:436-455 | NotFound for an unknown id; a failed command fails; otherwise the row refreshed from the first page |
| Domains.DomainService.Renew | src/domain/domain.service.ts:458-478 | NotFound for an unknown id; renew with the row's premium flag, then the refresh from the first page |
| Domains.DomainService.GetInfo | src/domain/domain.service.ts:481-497 | NotFound for an unknown id; a registrar failure fails; otherwise the row's response with the registrar's details |
| Domains.DomainService.Create | src/domain/domain.service.ts:499-522 | the created row is appended under the next id |
| Domains.DomainService.Update | src/domain/domain.service.ts:524-546 | NotFound for an unknown id; otherwise only that row is replaced by its updated version |
| Domains.DomainService.SetNameServers | src/domain/domain.service.ts:548-559 | NotFound for an unknown id; otherwise both name servers of that row are overwritten and nothing else |
| Domains.DomainService.Remove | src/domain/domain.service.ts:561-565 | NotFound for an unknown id; otherwise exactly that row is deleted |
| Domains.DomainService.WriteVerdicts | src/domain/domain.service.ts:680-690 | the rows become the merge of the verdicts and the count is the number of rows written |
| Domains.DomainService.RefreshNawalaInProcess | src/domain/domain.service.ts:652-700 | no used rows: zero counts and nothing written; a failed batch: nothing written and no log; otherwise the merge, one NawalaCheck entry and the counts |
| Domains.DomainService.ApplyNawalaResultsFromCron | src/domain/domain.service.ts:712-741 | no results: zero counts, nothing read or logged; otherwise the merge, one NawalaCheck entry and the counts |
| Domains.DomainService.RefreshNawala | src/domain/domain.service.ts:572-599 | scheduled with `at`: started and nothing written; a script run: the classified outcome; no script: the in-process check |
| Domains.DomainService.BulkMarkUsedFromFile | src/domain/domain.service.ts:747-773 | the rows are marked as the file's names say, and matched and updated are the counts of those names |
| Domains.MarkNames | src/domain/domain.service.ts:761-768 | the loop over the names marks exactly what the marking function does and counts the rows switched |
| Domains.MarkUsedStep | src/domain/domain.service.ts:762-767 | one more name touches at most the first row with its key, which earlier names left alone |
| Domains.CountMatched | src/domain/domain.service.ts:771 | the loop counts the names some row carries |
| Domains.CheckBatches | src/domain/domain.service.ts:665-678 | the first failing batch is reported; otherwise the map holds every batch's results in order |
| Domains.CheckAllStep | src/domain/domain.service.ts:668-671 | the check of the names from position i is one batch of 50 followed by the rest |
| Domains.ResultsMapAppend | src/domain/domain.service.ts:668-678 | the map of a longer run of results continues the map of its prefix |
| Domains.AddResults | src/domain/domain.service.ts:720-725 | the loop records every result, in order, under its key and its "www."-stripped key |
| Domains.FirstRows | src/domain/domain.service.ts:755-759 | `nameToDomain` maps exactly the row keys, each to the first row with it |
| Domains.FirstOccurrence | src/domain/domain.service.ts:758 | a key not seen before position i is first seen there |
| Domains.MergeVerdicts | src/domain/domain.service.ts:681-689 | the write loop yields the merge of the verdicts and counts exactly the rows written |
| Domains.WriteVerdictAt | src/domain/domain.service.ts:682-688 | one row: its verdict found under its key, then without "www.", and written when it differs |
| Domains.CountWritesStep | src/domain/domain.service.ts:685-687 | one more row adds one to the count exactly when it is written |
| Text.TrimShape | src/whitelisted-ip/whitelisted-ip.service.ts:32-33 | `trim` cuts only white space from either end and keeps the middle of the string in place |
| Text.TrimIdempotent | src/whitelisted-ip/whitelisted-ip.service.ts:23-24 | trimming a trimmed string changes nothing |
| Text.Lower | src/user/user.service.ts:59-60 | `toLowerCase` keeps the length and maps each character on its own |
| Text.LowerIdempotent | src/user/user.service.ts:84 | lower-casing a lower-cased string changes nothing |
| Text.TrimLowerCommute | src/domain/domain.service.ts:749 | `trim().toLowerCase()` and `toLowerCase().trim()` agree |
| Text.Split | src/domain/domain.service.ts:32 | `split` on one character yields at least one piece and no piece holds it |
| Text.JoinSplit | src/domain/trust-positif/trust-positif.service.ts:103 | joining the pieces of a split with the same character gives the string back |
| Text.SplitJoin | src/domain/trust-positif/trust-positif.service.ts:103 | splitting a join of pieces free of the separator gives the pieces back |
| Text.BeforeFirst | src/auth/guards/ip-whitelist.guard.ts:19 | `split(',')[0]` holds no comma |
| Text.BeforeFirstIsPrefix | src/auth/guards/ip-whitelist.guard.ts:19 | it is a prefix of the string, ending at its end or at the first comma |
| Text.SplitLines | src/domain/domain.service.ts:748 | at least one line, and no line holds a CR or an LF |
| Text.StripWww | src/domain/domain.service.ts:675 | one leading "www." removed when present, the string kept otherwise |
| Text.StripTrailingDot | src/domain/domain.service.ts:24 | one final dot removed when present, the string kept otherwise |
| Text.NatToString | src/auth/auth.service.ts:59 | `String(n)` is digits with no leading zero |
| Text.NatToStringValue | src/auth/auth.service.ts:59 | those digits read back as n |
| Text.PadStart2Value | src/domain/domain.service.ts:40-41 | the two-digit padded month or day reads back as its number |
| Text.ParseInt | src/domain/namecheap/namecheap.service.ts:120-122 | `parseInt(s, 10)` is NaN exactly when no digit follows the leading space and the sign |
| Js.WholeNumber | src/domain/domain.service.ts:644 | a number is read as a whole number exactly when it is finite with no digits after the point, and then as its value cut to an integer |
| Text.ParseIntOfNat | src/domain/namecheap/namecheap.service.ts:88-89 | `parseInt` reads back what `String(n)` writes |
| Js.EnsureArray | src/domain/namecheap/namecheap.service.ts:21-24 | null and undefined give no elements, an array its own, anything else one |
| Js.EnsureArrayOfOne | src/domain/namecheap/namecheap.service.ts:21-24 | a single element and the array holding only it give the same list |
| Table.IndexOfId | src/user/user.service.ts:43-47 | `findOne({ id })`: the position of the row carrying the id, none exactly when no row does |
| Table.Without | src/user/user.service.ts:104-108 | `remove`: the rows before and after the deleted one, in order |
| Table.Replaced | src/role/role.service.ts:62-73 | a flush of one entity: only that row's data changes, under the same id |
| Table.FindsOwnRow | src/role/role.service.ts:41-49 | with ascending ids, every row is found under its own id |
| Table.Appended | src/role/role.service.ts:51-60 | an insert under the next id keeps ids ascending and finds the new row |
| Table.Removed | src/role/role.service.ts:75-79 | a delete keeps ids ascending; the removed id is gone and every other id is still found |
| Table.ReplacedKeyed | src/role/role.service.ts:62-73 | replacing a row's data keeps ids ascending and the row under its id |
| Accounts.RolesOf | src/user/user.service.ts:17-27 | the loaded roles are exactly the existing roles the user links |
| Accounts.FoundRoleIds | src/user/user.service.ts:55-67 | an id is linked exactly when it was asked for and a role carries it |
| Accounts.UserNamed | src/auth/auth.service.ts:36 | `findOne({ username })`: a user with that name, none exactly when nobody has it |
| Accounts.RoleNames | src/auth/auth.service.ts:60 | the roles by name, in the same order |
| Users.FindRoles | src/user/user.service.ts:56 | the role rows whose id was asked for, no others |
| Users.AddRoles | src/user/user.service.ts:57-58 | the loop links the found roles on top of the existing links |
| Users.LinkRoles | src/user/user.service.ts:55-67 | the links are exactly the existing roles among the asked ids |
| Users.UserService.FindAll | src/user/user.service.ts:38-41 | every user's response, in id order |
| Users.UserService.FindOne | src/user/user.service.ts:43-47 | NotFound exactly when no user has the id; otherwise that user's response |
| Users.UserService.Create | src/user/user.service.ts:49-72 | Conflict and no change when the lower-cased name is taken; otherwise the lower-cased row under the next id, answered as findOne answers it |
| Users.UserService.Update | src/user/user.service.ts:74-102 | NotFound, Conflict for a name another user has, TypeError for a null roleIds, each with nothing stored; in every other case it succeeds, with only that row updated |
| Users.UserService.Remove | src/user/user.service.ts:104-108 | NotFound and no change for an unknown id; otherwise exactly that row deleted |
| Users.UpdateKeepsValid | src/user/user.service.ts:78-97 | an update past the name check keeps ids ascending, names unique and lower-cased |
| Users.CreateKeepsValid | src/user/user.service.ts:50-69 | an insert under a fresh name keeps the table valid and finds the new row |
| Users.RemoveKeepsValid | src/user/user.service.ts:104-108 | a delete keeps the table valid |
| Users.RemoveKeepsUnique | src/user/user.service.ts:104-108 | a delete keeps the user names unique |
| Users.UpdateIdempotent | src/user/user.service.ts:83-97 | the same update twice is the update once |
| Users.EmptyUpdateKeepsRow | src/user/user.service.ts:83-97 | an update naming no field leaves the row as it was |
| Users.EmptyRoleIdsClear | src/user/user.service.ts:88-97 | an empty roleIds list, or one of unknown ids, clears every link |
| Roles.Holders | src/role/role.service.ts:14-27 | exactly the users linking the role, with their id, name and e-mail |
| Roles.RoleService.FindAll | src/role/role.service.ts:36-39 | every role's id and name, in id order |
| Roles.RoleService.FindOne | src/role/role.service.ts:41-49 | NotFound exactly when no role has the id; with withUsers also the role's holders |
| Roles.RoleService.Create | src/role/role.service.ts:51-60 | Conflict and no change when the lower-cased name is taken; otherwise the row under the next id |
| Roles.RoleService.Update | src/role/role.service.ts:62-73 | NotFound; without a name the role unchanged; Conflict when another role has the lower-cased name; otherwise that name written |
| Roles.RoleService.Remove | src/role/role.service.ts:75-79 | NotFound and no change for an unknown id; otherwise exactly that row deleted |
| Roles.RemoveKeepsValid | src/role/role.service.ts:75-79 | a delete keeps ids ascending and names unique and lower-cased |
| Roles.RemoveKeepsUnique | src/role/role.service.ts:75-79 | a delete keeps the role names unique |
| Roles.DeletedRoleUnlisted | src/role/role.service.ts:75-79 | once a role is deleted no user's response lists it |
| Auth.ValidateUser | src/auth/auth.service.ts:35-40 | a user exactly when one has the lower-cased name and the password matches its hash |
| Auth.SignTokens | src/auth/auth.service.ts:94-109 | an "access" and a "refresh" token for the user with their own lifetimes, expires_in 3600 |
| Auth.Login | src/auth/auth.service.ts:42-65 | Unauthorized exactly when validation fails; otherwise the tokens, the id as its decimal string and the roles by name |
| Auth.Refresh | src/auth/auth.service.ts:67-92 | "expired" for a TokenExpiredError, "invalid" for other rejections, a non-refresh type or a missing user; otherwise a new access token for the subject |
| Auth.LoginIgnoresCase | src/auth/auth.service.ts:36 | names equal after lower-casing validate alike |
| Auth.LoginThenRefresh | src/auth/auth.service.ts:42-92 | a login's refresh token, accepted by the verifier, refreshes to that user's access token |
| Auth.AccessTokenDoesNotRefresh | src/auth/auth.service.ts:75-77 | an access token is refused by refresh |
| Auth.NewUserLogsIn | src/auth/auth.service.ts:35-40 | a user just added under a fresh name logs in with its password |
| WhitelistedIps.CleanDescription | src/whitelisted-ip/whitelisted-ip.service.ts:33 | null exactly when absent or blank; otherwise the trimmed text |
| WhitelistedIps.WhitelistedIpService.FindAll | src/whitelisted-ip/whitelisted-ip.service.ts:14-16 | every entry, in id order |
| WhitelistedIps.WhitelistedIpService.Create | src/whitelisted-ip/whitelisted-ip.service.ts:29-39 | the trimmed address and cleaned description under the next id |
| WhitelistedIps.WhitelistedIpService.Update | src/whitelisted-ip/whitelisted-ip.service.ts:18-27 | NotFound; TypeError for a null ip; otherwise each present key written cleaned, with stored entries kept clean |
| WhitelistedIps.WhitelistedIpService.Remove | src/whitelisted-ip/whitelisted-ip.service.ts:41-47 | NotFound and no change for an unknown id; otherwise exactly that row deleted |
| WhitelistedIps.CleanDescriptionIdempotent | src/whitelisted-ip/whitelisted-ip.service.ts:24 | cleaning twice is cleaning once |
| WhitelistedIps.UpdateIdempotent | src/whitelisted-ip/whitelisted-ip.service.ts:18-27 | the same update twice is the update once |
| WhitelistedIps.AbsentKeysUnchanged | src/whitelisted-ip/whitelisted-ip.service.ts:23-24 | a key left out of the update keeps its field |
| IpWhitelistGuard.GetClientIp | src/auth/guards/ip-whitelist.guard.ts:15-26 | the first hop of a truthy x-forwarded-for, else a truthy x-real-ip, else the socket address or "" |
| IpWhitelistGuard.CanActivate | src/auth/guards/ip-whitelist.guard.ts:36-61 | development and the skip marker admit; no address is refused; an address is admitted exactly when it is whitelisted |
| IpWhitelistGuard.ForwardedAddressIsOneHop | src/auth/guards/ip-whitelist.guard.ts:17-19 | a forwarded address holds no comma and no surrounding white space |
| IpWhitelistGuard.ForwardedWins | src/auth/guards/ip-whitelist.guard.ts:17-20 | with a truthy x-forwarded-for the other sources make no difference |
| IpWhitelistGuard.CreatedAddressAdmitted | src/auth/guards/ip-whitelist.guard.ts:48-60 | a direct request from a whitelisted address is admitted |
| RolesGuard.CanActivate | src/auth/guards/roles.guard.ts:11-25 | no required roles or development admits; no user roles refuses; otherwise admitted exactly when the user holds one required role |
| RolesGuard.MoreRolesKeepAccess | src/auth/guards/roles.guard.ts:22-24 | holding more roles never loses access |
| RolesGuard.RoleOrderIrrelevant | src/auth/guards/roles.guard.ts:24 | the order of the required roles does not matter |
| JwtAuthGuard.CanActivate | src/auth/guards/jwt-auth.guard.ts:26-41 | public routes pass untouched; development attaches the mock user and passes; otherwise the strategy decides |
| JwtAuthGuard.HandleRequest | src/auth/guards/jwt-auth.guard.ts:43-59 | an error passes through; no user is a 401, "expired" for TokenExpiredError and "invalid" otherwise; a user is returned |
| JwtAuthGuard.DevUserPassesSuperuserRoutes | src/auth/guards/jwt-auth.guard.ts:12-18 | the user attached in development passes the roles guard on any route admitting superusers, whether or not that guard sees development |
| DomainGroups.InsertByName | src/domain/domain-group.service.ts:29-32 | inserting into a name-ordered list keeps it ordered and adds exactly that group |
| DomainGroups.SortByName | src/domain/domain-group.service.ts:29-32 | `ORDER BY name ASC`: a permutation of the groups, ordered by name |
| DomainGroups.Responses | src/domain/domain-group.service.ts:14-20 | one response per group, in the same order |
| DomainGroups.SortedListing | src/domain/domain-group.service.ts:29-32 | the listing holds each group once, in name order |
| DomainGroups.DomainGroupService.FindAll | src/domain/domain-group.service.ts:29-32 | as many entries as groups, names ascending, and a group is listed exactly when it is stored |
| DomainGroups.DomainGroupService.FindOne | src/domain/domain-group.service.ts:34-40 | NotFound exactly when no group has the id; otherwise that group's response |
| DomainGroups.DomainGroupService.Create | src/domain/domain-group.service.ts:42-52 | the name and the description or null under the next id |
| DomainGroups.DomainGroupService.Update | src/domain/domain-group.service.ts:54-63 | NotFound and no change for an unknown id; otherwise only that row, each present key written |
| DomainGroups.DomainGroupService.Remove | src/domain/domain-group.service.ts:65-71 | NotFound and no change for an unknown id; otherwise exactly that row deleted |
| DomainGroups.UpdateIdempotent | src/domain/domain-group.service.ts:54-63 | the same update twice is the update once; one with no keys changes nothing |
| Cpanels.UpdatedEntry | src/cpanel/cpanel.service.ts:44-56 | an update never touches the attached domains |
| Cpanels.WriteCredentials | src/cpanel/cpanel.service.ts:46-48 | the three credentials written only when given and not null |
| Cpanels.WriteDetails | src/cpanel/cpanel.service.ts:49-53 | the five descriptive fields written whenever their key is present, null included |
| Cpanels.CpanelService.FindAll | src/cpanel/cpanel.service.ts:15-17 | every row in id order |
| Cpanels.CpanelService.FindOne | src/cpanel/cpanel.service.ts:19-23 | NotFound exactly when no row has the id; otherwise that stored row |
| Cpanels.CpanelService.Create | src/cpanel/cpanel.service.ts:25-42 | the given fields, null for absent ones and no domains, under the next id |
| Cpanels.CpanelService.Update | src/cpanel/cpanel.service.ts:44-56 | NotFound and no change for an unknown id; otherwise only that row updated |
| Cpanels.CpanelService.Remove | src/cpanel/cpanel.service.ts:58-61 | NotFound and no change for an unknown id; otherwise exactly that row deleted |
| Cpanels.CredentialsNeverCleared | src/cpanel/cpanel.service.ts:46-53 | a null or absent credential keeps its value, while a null descriptive field is cleared |
| Cpanels.UpdateIdempotent | src/cpanel/cpanel.service.ts:44-56 | the same update twice is the update once |
| Cpanels.UpdateAllFieldsIsCreate | src/cpanel/cpanel.service.ts:25-56 | updating every field of a created row gives the row created from those values |
| WordPress.WordPressService.FindAll | src/wordpress/wordpress.service.ts:15-17 | every row, ids ascending |
| WordPress.WordPressService.FindOne | src/wordpress/wordpress.service.ts:19-23 | NotFound exactly when no row has the id; otherwise that stored row |
| WordPress.WordPressService.Create | src/wordpress/wordpress.service.ts:25-36 | the three fields under the next id |
| WordPress.WordPressService.Update | src/wordpress/wordpress.service.ts:38-45 | NotFound and no change for an unknown id; otherwise only that row, each given field written |
| WordPress.WordPressService.Remove | src/wordpress/wordpress.service.ts:47-50 | NotFound and no change for an unknown id; otherwise exactly that row deleted |
| WordPress.UpdateIdempotent | src/wordpress/wordpress.service.ts:38-45 | the same update twice is the update once; one with no values changes nothing |
| WordPressController.CensorPasswordIfNeeded | src/wordpress/wordpress.controller.ts:19-25 | a superuser or an empty password gets the item itself; anyone else the item with the password censored |
| WordPressController.FindAll | src/wordpress/wordpress.controller.ts:34-38 | each listed item censored for a caller who is not a superuser |
| WordPressController.FindOne | src/wordpress/wordpress.controller.ts:42-48 | NotFound passes through; the found item censored the same way |
| WordPressController.CensorIdempotent | src/wordpress/wordpress.controller.ts:19-25 | censoring twice is censoring once |
| WordPressController.NoPasswordLeaks | src/wordpress/wordpress.controller.ts:34-38 | a caller who is not a superuser sees only an empty or censored password |
| WordPressController.SuperuserSeesAll | src/wordpress/wordpress.controller.ts:34-38 | a superuser's list is the service's list |
| HttpExceptionFilter.HttpErrors | src/http-exception.filter.ts:40-47 | the errors list; else the message, as one entry or as the list; else "Unauthorized" |
| HttpExceptionFilter.Catch | src/http-exception.filter.ts:29-62 | an HTTP exception keeps its status and has no stack; anything else is a 500 with its message, and a stack only outside production |
| HttpExceptionFilter.FailureReplies | src/http-exception.filter.ts:29-62 | each failure the services raise reaches the client with its own status and error list or message |
| HttpExceptionFilter.NoStackInProduction | src/http-exception.filter.ts:49-57 | production never sends a stack, and an HTTP exception never does |
| HttpExceptionFilter.ErrorsNonEmpty | src/http-exception.filter.ts:37-57 | the body holds at least one error unless the exception supplied an empty list |
| TrustPositifForm.CookiePair | src/domain/trust-positif/trust-positif.service.ts:48-49 | a cookie's name=value pair holds no ";" |
| TrustPositifForm.CookiePairs | src/domain/trust-positif/trust-positif.service.ts:45-51 | the kept pairs are non-empty, free of ";" and no more than the lines |
| TrustPositifForm.PairsTrimmed | src/domain/trust-positif/trust-positif.service.ts:48-49 | every kept pair is already trimmed |
| TrustPositifForm.JoinSpaced | src/domain/trust-positif/trust-positif.service.ts:52 | joining with "; " is joining the space-prefixed pairs with ";" |
| TrustPositifForm.SplitSpaced | src/domain/trust-positif/trust-positif.service.ts:46-52 | splitting a "; "-joined header at ";" and trimming gives back each pair |
| TrustPositifForm.CookieHeaderSplits | src/domain/trust-positif/trust-positif.service.ts:42-53 | the Cookie header, split at ";" and trimmed, gives back exactly the kept pairs |
| TrustPositifForm.RunWithout | src/domain/trust-positif/trust-positif.service.ts:58-59 | the longest run without a quote (or without '>') from a position |
| TrustPositifForm.TokenAt | src/domain/trust-positif/trust-positif.service.ts:58-59 | a captured token is non-empty and holds no quote |
| TrustPositifForm.LastValueIn | src/domain/trust-positif/trust-positif.service.ts:58 | the greedy `[^>]*`: the last value attribute in range, none exactly when there is none |
| TrustPositifForm.FirstNameThenValue | src/domain/trust-positif/trust-positif.service.ts:58 | the leftmost match of the name-then-value pattern, none exactly when there is none |
| TrustPositifForm.FirstValueThenName | src/domain/trust-positif/trust-positif.service.ts:59 | the leftmost match of the value-then-name pattern, none exactly when there is none |
| TrustPositifForm.ExtractCsrfToken | src/domain/trust-positif/trust-positif.service.ts:56-64 | a non-empty token without quotes; the error exactly when neither pattern matches |
| TrustPositifForm.NameFirstWins | src/domain/trust-positif/trust-positif.service.ts:57-59 | a page where the first pattern matches yields its token, whatever the second would find |
| TrustPositifForm.RowFieldPrefersUpper | src/domain/trust-positif/trust-positif.service.ts:181-182 | `row.Domain ?? row.domain ?? ''`: the capitalised field wins when present, "" when neither is |
| TrustPositif.BaseUrl | src/domain/trust-positif/trust-positif.service.ts:27-31 | the default without a non-blank variable; otherwise it trimmed, less one final "/" |
| TrustPositif.RequestHeaders | src/domain/trust-positif/trust-positif.service.ts:34-39 | the defaults, Host exactly for an https base not naming the site, the caller's headers winning |
| TrustPositif.ServiceCookieHeader | src/domain/trust-positif/trust-positif.service.ts:42-53 | undefined exactly without a header; otherwise the folded pairs |
| TrustPositif.CookieHeaderIsNew | src/domain/trust-positif/trust-positif.service.ts:109-118 | no header before the cookie is named Cookie, so the cookie is added, never overwritten |
| TrustPositif.NamesRequest | src/domain/trust-positif/trust-positif.service.ts:103-118 | the token and the names one per line, JSON asked for, the referer, and a Cookie exactly when there are cookies |
| TrustPositif.RowDomains | src/domain/trust-positif/trust-positif.service.ts:181 | each row's trimmed domain, in order |
| TrustPositif.Verdicts | src/domain/trust-positif/trust-positif.service.ts:180-186 | one verdict per row, from its domain and status |
| TrustPositif.RowResults | src/domain/trust-positif/trust-positif.service.ts:180-186 | one result per row, in row order |
| TrustPositif.Missing | src/domain/trust-positif/trust-positif.service.ts:165-167 | the non-blank requested keys that no row names |
| TrustPositif.Answered | src/domain/trust-positif/trust-positif.service.ts:140-173 | a non-2xx status, a missing values array and missing names fail with their messages; accepted rows answer every requested name |
| TrustPositif.Fetched | src/domain/trust-positif/trust-positif.service.ts:80-173 | the fetched rows answer every non-blank requested name and none is null |
| TrustPositif.EmptyListAsksNothing | src/domain/trust-positif/trust-positif.service.ts:71-74 | an empty list answers nothing, whatever the site does |
| TrustPositif.CheckComplete | src/domain/trust-positif/trust-positif.service.ts:165-186 | a successful check has one result per row, and every non-blank requested name is among the result domains |
| TrustPositif.RawStatuses | src/domain/trust-positif/trust-positif.service.ts:182 | each row's trimmed status, case kept |
| TrustPositif.ClassOf | src/domain/trust-positif/trust-positif.service.ts:175-188 | a status is blocked, not blocked or unknown, from the two value lists |
| TrustPositif.TallyCounts | src/domain/trust-positif/trust-positif.service.ts:187-192 | the three counts add up to the rows, blocked is the number of blocked results, and the unknown set holds exactly the raw unknown statuses |
| TrustPositif.TallyCountsRows | src/domain/trust-positif/trust-positif.service.ts:180-197 | the tally of a check counts each of its results once |
| TrustPositif.ClassifyRows | src/domain/trust-positif/trust-positif.service.ts:176-193 | the loop yields the verdict of every row and the tally of their statuses |
| TrustPositif.CheckDomains | src/domain/trust-positif/trust-positif.service.ts:71-203 | the service answers as the check specification does |
| TrustPositifScript.ScriptCookieHeader | scripts/fetch-trustpositif-data.ts:28-39 | "" without a header; otherwise the folded pairs |
| TrustPositifScript.CookieHeadersAgree | scripts/fetch-trustpositif-data.ts:28-39 | the script folds cookies exactly as the service does, "" standing for undefined |
| TrustPositifScript.NamesRequest | scripts/fetch-trustpositif-data.ts:62-71 | the token and the names one per line, a Cookie exactly when non-empty, no Host and no Accept-Language |
| TrustPositifScript.Normalised | scripts/fetch-trustpositif-data.ts:90-93 | one row per value, both fields trimmed, case kept |
| TrustPositifScript.Answered | scripts/fetch-trustpositif-data.ts:83-94 | a non-2xx status and a missing values array fail; otherwise every row normalised |
| TrustPositifScript.ScriptSkipsCompleteness | scripts/fetch-trustpositif-data.ts:83-94 | where the service refuses an answer for missing names, the script accepts it |
| TrustPositifScript.FetchForDomains | scripts/fetch-trustpositif-data.ts:51-95 | a failed GET passes its error on; a page without a token fails with the token message |
| TrustPositifScript.Batches | scripts/fetch-trustpositif-data.ts:133-134 | the names cut into consecutive slices of 50 |
| TrustPositifScript.BatchesCover | scripts/fetch-trustpositif-data.ts:133-134 | the batches concatenate to the names, each non-empty and at most 50, all but the last full |
| TrustPositifScript.FetchBatchesConcat | scripts/fetch-trustpositif-data.ts:133-138 | the run succeeds exactly when every batch does, yielding every batch's rows in order |
| TrustPositifScript.FetchAll | scripts/fetch-trustpositif-data.ts:132-138 | the loop over i += 50 yields the batch run |
| TrustPositifScript.Run | scripts/fetch-trustpositif-data.ts:111-156 | no used names: the note; otherwise every batch's rows and the number of names, or the first failure |
| NamecheapConfig.CredentialsOf | src/domain/namecheap-config.service.ts:34-63 | the first row's credentials, base URL defaulted; without rows the complete environment's; NotFound exactly when neither exists |
| NamecheapConfig.DisplayOf | src/domain/namecheap-config.service.ts:66-89 | null exactly without rows; otherwise the first row with its password and key masked |
| NamecheapConfig.DisplayHidesSecrets | src/domain/namecheap-config.service.ts:83-84 | the view never carries a stored password or key: only the mask, null or "" |
| NamecheapConfig.Upsert | src/domain/namecheap-config.service.ts:94-119 | the first row overwritten in place under its id, or one row inserted; later rows untouched |
| NamecheapConfig.UpsertThenCredentials | src/domain/namecheap-config.service.ts:34-45 | after setting the config, the credentials are the ones just written, whatever the environment |
| NamecheapConfig.UpsertIdempotent | src/domain/namecheap-config.service.ts:94-119 | setting the same config twice is setting it once |
| NamecheapConfig.ConfigStore.GetCredentials | src/domain/namecheap-config.service.ts:34-63 | the credentials of the stored rows |
| NamecheapConfig.ConfigStore.GetConfigForDisplay | src/domain/namecheap-config.service.ts:66-89 | the display view of the stored rows |
| NamecheapConfig.ConfigStore.SetConfig | src/domain/namecheap-config.service.ts:94-119 | the rows become their upsert and the first row is returned |
| Namecheap.RequestParams | src/domain/namecheap/namecheap.service.ts:40-47 | the five credential parameters, then the command's own, which win on a clash |
| Namecheap.ErrorTexts | src/domain/namecheap/namecheap.service.ts:65 | each error's text or number, empty ones dropped |
| Namecheap.Envelope | src/domain/namecheap/namecheap.service.ts:60-69 | the error exactly for an ERROR status or a numbered error, with the joined message; otherwise the command response |
| Namecheap.StatusOnlyMessage | src/domain/namecheap/namecheap.service.ts:65-66 | an ERROR status without error elements reports "ERROR" |
| Namecheap.UnnumberedErrorsPass | src/domain/namecheap/namecheap.service.ts:64 | errors without a number do not fail an OK envelope |
| Namecheap.Request | src/domain/namecheap/namecheap.service.ts:38-70 | missing credentials and client errors pass through; otherwise the envelope's verdict on the parsed answer |
| Namecheap.ListParams | src/domain/namecheap/namecheap.service.ts:86-91 | exactly the given options become parameters, empty sort and search dropped, numbers read back by parseInt |
| Namecheap.ParseIntOfInt | src/domain/namecheap/namecheap.service.ts:88-89 | `parseInt(String(i))` is i, negatives included |
| Namecheap.BoolAttr | src/domain/namecheap/namecheap.service.ts:109-114 | an absent flag is false; "true" in any case is true |
| Namecheap.Item | src/domain/namecheap/namecheap.service.ts:101-116 | each attribute read with its default; absent flags false |
| Namecheap.DomainNodes | src/domain/namecheap/namecheap.service.ts:97-99 | no Domain node gives no items |
| Namecheap.Items | src/domain/namecheap/namecheap.service.ts:101-116 | one item per node, in order |
| Namecheap.PagingField | src/domain/namecheap/namecheap.service.ts:120-122 | an empty or absent field takes its fallback |
| Namecheap.ListOf | src/domain/namecheap/namecheap.service.ts:97-124 | the items of the Domain nodes and the paging read beside them |
| Namecheap.PagingFallback | src/domain/namecheap/namecheap.service.ts:120-122 | without paging data the page is the whole list, page 1 |
| Namecheap.SingleNodeIsList | src/domain/namecheap/namecheap.service.ts:99 | a single Domain node and an array of just it give the same list |
| Namecheap.GetList | src/domain/namecheap/namecheap.service.ts:76-125 | succeeds exactly when the request does, and then is the list read from its answer |
| Namecheap.ReactivateSucceeded | src/domain/namecheap/namecheap.service.ts:136-137 | the result node's IsSuccess attribute, or the whole response's when the node is absent |
| Namecheap.Reactivate | src/domain/namecheap/namecheap.service.ts:131-139 | succeeds exactly when the request does, with that verdict |
| Namecheap.RenewParams | src/domain/namecheap/namecheap.service.ts:150-156 | the name and years, then exactly the given options, an empty promotion code dropped |
| Namecheap.ResultNode | src/domain/namecheap/namecheap.service.ts:162-163 | the result node when present, the command's own error otherwise |
| Namecheap.Renew | src/domain/namecheap/namecheap.service.ts:145-165 | the request's failure, or its DomainRenewResult, or the missing-result error |
| Namecheap.InfoParams | src/domain/namecheap/namecheap.service.ts:172-173 | the name, and HostName exactly when given and non-empty |
| Namecheap.GetInfo | src/domain/namecheap/namecheap.service.ts:171-181 | the request's failure, or its DomainGetInfoResult, or the missing-result error |
| DomainController.UploadGate | src/domain/domain.controller.ts:75-86 | no file or buffer is the first refusal; a file neither named .txt nor of a text type the second; otherwise its text |
| DomainController.RefreshNawalaResponse | src/domain/domain.controller.ts:103-111 | the service's answer, or a Bad Gateway naming the error's message |
| DomainController.WrappingKeepsMessage | src/domain/domain.controller.ts:107-110 | two failures with different messages stay apart after wrapping |
| DomainController.CronDomainsGate | src/domain/domain.controller.ts:120-126 | the used names exactly when the trimmed secret is set and matches; otherwise NotFound "Not found" |
| DomainController.ApplyFromCron | src/domain/domain.controller.ts:134-136 | the results applied as the service does, no results changing nothing |
| DomainController.ApplyIgnoresSecret | src/domain/domain.controller.ts:134-136 | the secret sent with the results changes nothing |
| BulkMarkUsed.NothingMarksNoUpdate | src/domain/domain.service.ts:761-772 | names that switch no row give an updated count of zero |
| DomainOrder.CompareAntisymmetric | src/domain/domain.service.ts:222-241 | swapping two rows negates their comparison under any sort keys |
| DomainOrder.Insert | src/domain/domain.service.ts:222-241 | inserting into an ordered list keeps it ordered and adds exactly that row |
| NawalaMerge.CountWrites | src/domain/domain.service.ts:685-687 | the rows written are at most the rows |
| NawalaMerge.CountUsed | src/domain/domain.service.ts:656-659 | the used rows are at most the rows |
| NawalaMerge.NoWritesCountZero | src/domain/domain.service.ts:685-690 | when no row's verdict differs, nothing is counted as updated |
| RegistrarSync.Written | src/domain/domain.service.ts:336 | the items merged before the first unparsable Expires: all earlier ones parsed, that one did not |
| RegistrarSync.ApplyMakesPresent | src/domain/domain.service.ts:329-380 | after merging an item a row matches it |
| RegistrarSync.ApplyKeepsPresent | src/domain/domain.service.ts:329-380 | merging an item keeps every row matching another item with a different id and name |
| RegistrarSync.SyncKeepsPresent | src/domain/domain.service.ts:326-382 | a sync keeps rows matching items it does not touch |
| DomainModel.FormatIsJoin | src/domain/domain.service.ts:39-44 | the formatted expiry is the month, day and year joined with "/" |

## Left out

- Network and process I/O are parameters, not modelled. This covers the HTTP client, `dns/promises`, `spawnSync` of `at` and of the Nawala script, and the script's database read and file write. Searching for the script on disk is reduced to a flag saying whether it was found.
- XML parsing (fast-xml-parser), `JSON.parse`, `JSON.stringify` and `URLSearchParams` are libraries. The model starts from the parsed tree and stops at the form fields, in order. Only string-valued XML attributes are read.
- bcrypt, JWT signing and verification, and the passport JWT strategy (`super.canActivate`, jwt.strategy.ts) are parameters. The model states only what the services decide from their answers.
- The clock is a parameter or left out. This covers `createdAt`/`updatedAt`, the sync-log timestamps, and the "now" of the needs-renewal flag in `toResponse`.
- DomainModel.ParseExpires: month and day roll-over of the stored JavaScript `Date` is not modelled. A month of 13 or a day of 32 is kept as given. The roll-over is used only to decide whether the day is inside the time-value range, which is when the parse throws.
- DomainModel.ParseExpires: the local time-zone offset is taken as zero (UTC). In another zone the end of the time-value range moves by up to a day.
- DomainModel.NumberOf: a number is kept as an exact decimal. Rounding to a 64-bit float is not modelled, so a literal such as "1e-400", which JavaScript reads as 0, keeps its tiny value. The cut to whole numbers is exact only where no such rounding occurs.
- Js.ToNumber: a string that reads as a fraction or an infinity is taken as NaN, since the value model holds only whole numbers. `Number(x) || 0` then gives 0 where JavaScript keeps the fraction.
- Text.Lower: case-folds ASCII letters only. Unicode case mapping is out of scope.
- DomainOrder.Sort: Postgres collation is taken to be code-point ("C") order, and rows that tie on every key keep ascending id order. The database guarantees neither.
- DomainListing.OrderKeys: a `sortBy` outside the validated list is not modelled; the DTO validation rejects it first.
- Class-validator and class-transformer DTO checks (`ValidationPipe`) are not modelled. Inputs are taken as the validated DTOs. The listing query is the one exception: its `page` and `limit` stay optional, so a direct call of `findAll` is modelled. Over HTTP, the pipe's defaults of page 1 and limit 10 always fill them.
- MikroORM's identity map, `populate` and lazy-loading checks are not modelled. Relations are ids looked up in the tables passed in. The re-read that `create`/`update` of a user perform after the flush is the lookup of the stored row.
- Commit points are not modelled. Each method's resulting state is the state after its last flush. A failure part-way through the registrar sync keeps the items written before it, as the per-item flush does. Writes between two flushes in the name-server batches are not separated.
- The Promise.all fan-out inside a name-server batch is a sequential loop; each callback touches only its own row. Scheduler triggers and overlapping cron runs are not modelled.
- Roles.RoleService.Remove: the database's cascade on the user–role link table is not modelled. Links to a removed role stay, and loading a user's roles skips them (Roles.DeletedRoleUnlisted).
- DomainGroups.DomainGroupService.Update: a `name` key holding null is not represented. `@IsOptional` lets null through, and the service assigns it. The flush then fails on the NOT NULL column, which is a database error this model does not include.
- Cpanels.CpanelService.Remove: the database's `on delete set null` on the domain rows' cPanel id is not modelled. Rows linked to a removed account keep its id, so `unlinkedOnly` does not list them, though after the real delete it would.
- DomainGroups.DomainGroupService.Remove: the same holds for the group id of the domain rows, which affects `ungroupedOnly`.
- Cpanels.CpanelService.Create: the `domains` relation of a cPanel account is only its initial empty list; attaching and detaching domains happens elsewhere.
- WordPressController create, update and remove hand the service's result back unchanged. The service methods are modelled, and the controller adds nothing to them.
- Domains.DomainService.Update: `getReference` for a cPanel or group id is the id itself. The foreign-key check the database makes at the flush is not modelled.
- Domains.DomainService.BulkMarkUsedFromFile: the upload is taken as already decoded text. UTF-8 decoding of the buffer is not modelled.
- Log messages, the logger and the truncated body previews in log lines are not modelled. Error messages thrown to callers are modelled.
- A `findOne` or `find` without an `orderBy` is taken to return the row with the lowest id, or the rows in id order. The database promises neither.
- NawalaScript.OutputSnippet: lengths are counted in characters, not in the UTF-16 code units that JavaScript's `slice` counts. The two differ only outside the Basic Multilingual Plane.
- HttpExceptionFilter.Catch: `String(value)` for a thrown non-Error value is its text, given as a parameter.
- TrustPositifForm.ExtractCsrfToken and NawalaScript.Captured: the regular expressions are modelled by the shapes they accept, not by a regex engine.

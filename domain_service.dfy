/** `DomainService` (src/domain/domain.service.ts) as a store of domain rows and sync-log
    entries. The `domains` table is `rows`, kept in ascending id order (the map from id
    to row, read in key order); `nextId` is the next id the database hands out; `log` is
    the append-only `sync_log` table. Registrar pages, DNS answers, the Trust Positif
    check and the clock are parameters. */
module Domains {
  import opened Wrappers
  import opened Text
  import opened Js
  import opened DomainModel
  import opened SyncLog
  import opened RegistrarSync
  import opened NameServers
  import opened NawalaMerge
  import opened BulkMarkUsed
  import opened NawalaScript
  import opened DomainListing
  import NamecheapConfig
  import Namecheap

  /** Rows per name-server batch, and names per Trust Positif request. */
  const NS_BATCH: nat := 50
  const NAWALA_BATCH: nat := 50

  // ---------------------------------------------------------------------------
  // Finding a row

  /** The position of the row with id `id`. */
  function IndexOfId(rows: seq<Domain>, id: int): (r: Option<nat>)
    ensures r.Some? ==> r.value < |rows| && rows[r.value].id == id
    ensures r.None? <==> forall i :: 0 <= i < |rows| ==> rows[i].id != id
  {
    if |rows| == 0 then None
    else if rows[0].id == id then Some(0)
    else match IndexOfId(rows[1..], id)
      case None => None
      case Some(k) => Some(k + 1)
  }

  function NotFoundMessage(id: int): string {
    "Domain dengan id " + IntToString(id) + " tidak ditemukan"
  }

  function CpanelOf(d: Domain, cpanels: map<nat, CpanelInfo>): Option<CpanelInfo> {
    if d.cpanel.Some? && d.cpanel.value in cpanels then Some(cpanels[d.cpanel.value]) else None
  }

  // ---------------------------------------------------------------------------
  // Registrar pages

  /** The items gathered so far in front of what is still to be fetched. */
  function PrependItems(xs: seq<RegistrarItem>, r: Result<seq<RegistrarItem>>): Result<seq<RegistrarItem>> {
    if r.Err? then r else Ok(xs + r.value)
  }

  datatype SyncCounts = SyncCounts(added: nat, updated: nat)
  datatype DomainSyncCounts = DomainSyncCounts(added: nat, updated: nat, nsUpdated: nat)

  // ---------------------------------------------------------------------------
  // reactivate / renew

  /** `getList({ pageSize: 100 })`: the first page only. */
  const FIRST_PAGE: Namecheap.ListOptions := Namecheap.ListOptions(None, None, Some(100), None, None)

  /** The row after `reactivate` or `renew` looked it up in the registrar's first page:
      unchanged when no item matches, refreshed from the first item matching by name or
      by registrar id; a failed list request or an unparsable expiry date fails. */
  function Refetched(d: Domain, list: Result<Namecheap.DomainList>): (r: Result<Domain>)
    ensures list.Err? ==> r == Err(list.error)
    ensures list.Ok? && FindItem(list.value.domains, d).None? ==> r == Ok(d)
    ensures r.Ok? ==> (SameUserFields(d, r.value) && r.value.id == d.id && r.value.name == d.name
      && r.value.namecheapId == d.namecheapId && r.value.nawala == d.nawala)
  {
    if list.Err? then Err(list.error)
    else
      var k := FindItem(list.value.domains, d);
      if k.None? then Ok(d)
      else
        var item := list.value.domains[k.value];
        var expiry := ParseExpires(item.expires);
        if expiry.Err? then Err(expiry.error) else Ok(RefreshedStatus(d, item, expiry.value))
  }

  /** A registrar command (`reactivate`, `renew`) for row `d`, then the refresh from the
      first page. */
  function AfterCommand<T>(d: Domain, command: Result<T>, creds: Result<NamecheapConfig.Credentials>,
                           fetch: Namecheap.Fetch): Result<Domain>
  {
    if command.Err? then Err(command.error)
    else Refetched(d, Namecheap.GetList(creds, FIRST_PAGE, fetch))
  }

  /** `{ isPremiumDomain: domain.isPremium ?? false }` */
  function RenewOptionsFor(d: Domain): (o: Namecheap.RenewOptions)
    ensures o.isPremiumDomain == Some(d.isPremium.Some? && d.isPremium.value)
    ensures o.premiumPrice.None? && o.promotionCode.None?
  {
    Namecheap.RenewOptions(Some(d.isPremium.GetOr(false)), None, None)
  }

  /** What `getInfo` reports next to the row: the registrar's status (or "") and the
      dates of its `DomainDetails` node, each as found in the parsed tree. */
  datatype InfoView = InfoView(domain: DomainResponse, status: Value, createdDate: Value, expiredDate: Value)

  function InfoOf(d: Domain, info: Value): (r: InfoView)
    ensures r.domain == ToResponse(d, None, None)
    ensures Nullish(Get(info, "Status")) ==> r.status == Str("")
    ensures !Nullish(Get(info, "Status")) ==> r.status == Get(info, "Status")
    ensures !Get(info, "DomainDetails").Obj? ==> r.createdDate == Undefined && r.expiredDate == Undefined
  {
    var details := Get(info, "DomainDetails");
    InfoView(ToResponse(d, None, None), Coalesce(Get(info, "Status"), Str("")),
             Get(details, "CreatedDate"), Get(details, "ExpiredDate"))
  }

  // ---------------------------------------------------------------------------
  // create / update

  /** `CreateDomainDto` with `expiryDate` already read as a date. */
  datatype CreateDto = CreateDto(
    name: string, active: Option<bool>, expiryDate: Date, description: Option<string>,
    nameServer1: Option<string>, nameServer2: Option<string>, isUsed: Option<bool>,
    category: Option<Category>, groupId: Option<nat>)

  /** The row `create` inserts: the given fields, `active` and `isUsed` defaulting to true
      and false, every registrar field empty and every flag off. */
  function CreatedRow(id: nat, dto: CreateDto, now: int): (d: Domain)
    ensures d.id == id && d.name == dto.name && d.expiryDate == dto.expiryDate && d.createdAt == now
    ensures d.active == dto.active.GetOr(true) && d.isUsed == dto.isUsed.GetOr(false)
    ensures d.description == dto.description && d.category == dto.category && d.group == dto.groupId
    ensures d.nameServer1 == dto.nameServer1 && d.nameServer2 == dto.nameServer2
    ensures d.namecheapId.None? && d.user.None? && d.created.None? && d.cpanel.None?
    ensures !d.isExpired && !d.isLocked && !d.autoRenew && !d.nawala && !d.isDefense && !d.isLinkAlt
  {
    Domain(id, None, dto.name, None, None, false, false, false, None, None, None,
      dto.active.GetOr(true), dto.expiryDate, dto.description, dto.nameServer1, dto.nameServer2,
      None, false, dto.isUsed.GetOr(false), dto.category, false, false, dto.groupId, now)
  }

  /** `UpdateDomainDto`. `Option` fields are checked with `!= null` (absent or null leaves
      the field alone), `Patch` fields with `!== undefined` (a present null is written). */
  datatype UpdateDto = UpdateDto(
    name: Option<string>, active: Option<bool>, expiryDate: Option<Date>,
    description: Patch<Option<string>>, nameServer1: Patch<Option<string>>,
    nameServer2: Patch<Option<string>>, cpanelId: Patch<Option<nat>>, isUsed: Patch<bool>,
    category: Patch<Option<Category>>, isDefense: Patch<bool>, isLinkAlt: Patch<bool>,
    groupId: Patch<Option<nat>>)

  const NO_CHANGES: UpdateDto := UpdateDto(None, None, None, Keep, Keep, Keep, Keep, Keep, Keep, Keep, Keep, Keep)

  /** The row after `update`: each provided field written, every other field kept. */
  function UpdatedRow(d: Domain, dto: UpdateDto): (r: Domain)
    ensures r.id == d.id && r.createdAt == d.createdAt && r.nawala == d.nawala
    ensures r.namecheapId == d.namecheapId && r.user == d.user && r.created == d.created
    ensures r.isExpired == d.isExpired && r.isLocked == d.isLocked && r.autoRenew == d.autoRenew
    ensures r.whoisGuard == d.whoisGuard && r.isPremium == d.isPremium && r.isOurDns == d.isOurDns
    ensures dto.name.None? ==> r.name == d.name
    ensures dto.name.Some? ==> r.name == dto.name.value
    ensures dto.description.Keep? ==> r.description == d.description
    ensures dto.description.Set? ==> r.description == dto.description.value
    ensures dto.cpanelId.Keep? ==> r.cpanel == d.cpanel
    ensures dto.cpanelId.Set? ==> r.cpanel == dto.cpanelId.value
    ensures dto.groupId.Keep? ==> r.group == d.group
    ensures dto.groupId.Set? ==> r.group == dto.groupId.value
  {
    d.(name := dto.name.GetOr(d.name), active := dto.active.GetOr(d.active),
       expiryDate := dto.expiryDate.GetOr(d.expiryDate),
       description := dto.description.GetOr(d.description),
       nameServer1 := dto.nameServer1.GetOr(d.nameServer1),
       nameServer2 := dto.nameServer2.GetOr(d.nameServer2),
       cpanel := dto.cpanelId.GetOr(d.cpanel), isUsed := dto.isUsed.GetOr(d.isUsed),
       category := dto.category.GetOr(d.category), isDefense := dto.isDefense.GetOr(d.isDefense),
       isLinkAlt := dto.isLinkAlt.GetOr(d.isLinkAlt), group := dto.groupId.GetOr(d.group))
  }

  /** An update with nothing provided changes nothing. */
  lemma NoChangesKeepsRow(d: Domain)
    ensures UpdatedRow(d, NO_CHANGES) == d
  {
  }

  /** Applying the same update twice is applying it once. */
  lemma UpdateIdempotent(d: Domain, dto: UpdateDto)
    ensures UpdatedRow(UpdatedRow(d, dto), dto) == UpdatedRow(d, dto)
  {
  }

  // ---------------------------------------------------------------------------
  // Nawala

  /** The names split into consecutive batches of 50, each checked in turn; the first
      failing batch fails the whole run, otherwise the results are concatenated. */
  function CheckAll(names: seq<string>, check: seq<string> -> Result<seq<CheckResult>>): Result<seq<CheckResult>>
    decreases |names|
  {
    if |names| == 0 then Ok([])
    else
      var n := if |names| < NAWALA_BATCH then |names| else NAWALA_BATCH;
      match check(names[..n])
      case Err(e) => Err(e)
      case Ok(rs) =>
        match CheckAll(names[n..], check)
        case Err(e) => Err(e)
        case Ok(rest) => Ok(rs + rest)
  }

  function PrependResults(xs: seq<CheckResult>, r: Result<seq<CheckResult>>): Result<seq<CheckResult>> {
    if r.Err? then r else Ok(xs + r.value)
  }

  /** `names.slice(i)`, empty once `i` has run past the end. */
  function From(names: seq<string>, i: nat): seq<string> {
    if i <= |names| then names[i..] else []
  }

  /** What `refreshNawalaInProcess` returns and leaves behind: with no used rows,
      `{ checked: 0, updated: 0 }` and nothing written; a failed batch, that failure and
      nothing written; otherwise the merge of every result, one `NawalaCheck` entry, and
      the number of used rows and of rows written. */
  function InProcessOutcome(rows: seq<Domain>, log: seq<Entry>,
                            check: seq<string> -> Result<seq<CheckResult>>, now: int)
    : (Result<Counts>, seq<Domain>, seq<Entry>)
  {
    var names := UsedNames(rows);
    if |names| == 0 then (Ok(Counts(0, 0)), rows, log)
    else
      var all := CheckAll(names, check);
      if all.Err? then (Err(all.error), rows, log)
      else
        var m := ResultsMap(all.value);
        (Ok(Counts(CountUsed(rows), CountWrites(rows, m))), MergeAll(rows, m), Record(log, NawalaCheck, now))
  }

  /** What `applyNawalaResultsFromCron` returns and leaves behind: no results, nothing
      read or written; otherwise the merge, one `NawalaCheck` entry and the counts. */
  function CronOutcome(rows: seq<Domain>, log: seq<Entry>, results: seq<CheckResult>, now: int)
    : (Counts, seq<Domain>, seq<Entry>)
  {
    if |results| == 0 then (Counts(0, 0), rows, log)
    else
      var m := ResultsMap(results);
      (Counts(CountUsed(rows), CountWrites(rows, m)), MergeAll(rows, m), Record(log, NawalaCheck, now))
  }

  /** The counts of the merge: every used row checked, no more written than checked. */
  lemma CronCountsBounded(rows: seq<Domain>, log: seq<Entry>, results: seq<CheckResult>, now: int)
    ensures var (c, _, _) := CronOutcome(rows, log, results, now);
      0 <= c.updated <= c.checked <= |rows|
  {
    WritesWithinUsed(rows, ResultsMap(results));
  }

  lemma InProcessCountsBounded(rows: seq<Domain>, log: seq<Entry>,
                               check: seq<string> -> Result<seq<CheckResult>>, now: int)
    ensures var (r, _, _) := InProcessOutcome(rows, log, check, now);
      r.Ok? ==> 0 <= r.value.updated <= r.value.checked == CountUsed(rows) <= |rows|
  {
    var names := UsedNames(rows);
    if |names| != 0 && CheckAll(names, check).Ok? {
      WritesWithinUsed(rows, ResultsMap(CheckAll(names, check).value));
    }
  }

  /** The in-process check and the cron route agree: once the batches of the used
      names came back, the rows, the log and the counts are those of applying the same
      results from the cron script. */
  lemma NawalaPathsAgree(rows: seq<Domain>, log: seq<Entry>,
                         check: seq<string> -> Result<seq<CheckResult>>, now: int)
    requires CheckAll(UsedNames(rows), check).Ok? && |CheckAll(UsedNames(rows), check).value| > 0
    ensures var (c, rows', log') := CronOutcome(rows, log, CheckAll(UsedNames(rows), check).value, now);
      InProcessOutcome(rows, log, check, now) == (Ok(c), rows', log')
  {
  }

  /** Merging verdicts changes no row's `isUsed`. */
  lemma {:induction false} MergeKeepsUsed(rows: seq<Domain>, m: map<string, bool>)
    ensures CountUsed(MergeAll(rows, m)) == CountUsed(rows)
  {
    if |rows| > 0 {
      var n := |rows| - 1;
      MergeKeepsUsed(rows[..n], m);
      assert MergeAll(rows, m)[..n] == MergeAll(rows[..n], m);
    }
  }

  /** Applying the same cron results a second time writes nothing: the rows stay as the
      first run left them and only another log entry is added. */
  lemma CronApplyIdempotent(rows: seq<Domain>, log: seq<Entry>, results: seq<CheckResult>, now: int, later: int)
    ensures var (c1, rows1, log1) := CronOutcome(rows, log, results, now);
      var (c2, rows2, log2) := CronOutcome(rows1, log1, results, later);
      && rows2 == rows1 && c2.updated == 0 && c2.checked == c1.checked
  {
    if |results| > 0 {
      var m := ResultsMap(results);
      MergeIdempotent(rows, m);
      MergeKeepsUsed(rows, m);
    }
  }

  /** Ids ascend, so an id names at most one row: the lookup of a row's id finds that
      row. */
  lemma FindsOwnRow(rows: seq<Domain>, nextId: nat, k: nat)
    requires IdsBelow(rows, nextId) && k < |rows|
    ensures IndexOfId(rows, rows[k].id) == Some(k)
  {
    assert IndexOfId(rows, rows[k].id).Some?;
  }

  /** After `create`, the new row is the one its id finds, and the table stays ordered. */
  lemma CreatedIsFound(rows: seq<Domain>, nextId: nat, dto: CreateDto, now: int)
    requires IdsBelow(rows, nextId)
    ensures var after := rows + [CreatedRow(nextId, dto, now)];
      IdsBelow(after, nextId + 1) && IndexOfId(after, nextId) == Some(|rows|)
  {
    var after := rows + [CreatedRow(nextId, dto, now)];
    assert IdsBelow(after, nextId + 1);
    FindsOwnRow(after, nextId + 1, |rows|);
  }

  /** After `remove`, the removed id finds nothing and every other row is still found. */
  lemma RemovedIsGone(rows: seq<Domain>, nextId: nat, k: nat)
    requires IdsBelow(rows, nextId) && k < |rows|
    ensures var after := rows[..k] + rows[k + 1..];
      && IndexOfId(after, rows[k].id).None?
      && forall j :: 0 <= j < |rows| && j != k ==> IndexOfId(after, rows[j].id).Some?
  {
    var after := rows[..k] + rows[k + 1..];
    forall i | 0 <= i < |after|
      ensures after[i].id != rows[k].id
    {
      if i < k {
        assert after[i] == rows[i];
      } else {
        assert after[i] == rows[i + 1];
      }
    }
    forall j | 0 <= j < |rows| && j != k
      ensures IndexOfId(after, rows[j].id).Some?
    {
      if j < k {
        assert after[j] == rows[j];
      } else {
        assert after[j - 1] == rows[j];
      }
    }
  }

  /** Which item a row finds depends only on its name and registrar id. */
  lemma {:induction false} FindItemByKeys(items: seq<RegistrarItem>, d: Domain, e: Domain)
    requires d.name == e.name && d.namecheapId == e.namecheapId
    ensures FindItem(items, d) == FindItem(items, e)
    decreases |items|
  {
    if |items| > 0 {
      FindItemByKeys(items[1..], d, e);
    }
  }

  /** Refreshing a row twice from the same list is refreshing it once. */
  lemma RefetchTwiceIsOnce(d: Domain, list: Result<Namecheap.DomainList>)
    requires Refetched(d, list).Ok?
    ensures Refetched(Refetched(d, list).value, list) == Refetched(d, list)
  {
    var d1 := Refetched(d, list).value;
    FindItemByKeys(list.value.domains, d, d1);
  }

  /** How `refreshNawala` runs the check: the script was found and `at now` took it; the
      script was found, `at` was not usable and the script ran to the given end; or no
      script was found. */
  datatype NawalaRoute = ScheduledWithAt | ScriptRun(result: SpawnResult) | InProcess

  datatype NawalaRefresh = NawalaRefresh(checked: int, updated: int, started: bool)

  // ---------------------------------------------------------------------------
  // The service

  class DomainService {
    var rows: seq<Domain>
    var nextId: nat
    var log: seq<Entry>

    /** Ids ascend and stay below the next id. */
    ghost predicate Valid()
      reads this
    {
      IdsBelow(rows, nextId)
    }

    constructor ()
      ensures Valid() && rows == [] && log == [] && nextId == 1
    {
      rows := [];
      nextId := 1;
      log := [];
    }

    /** `findOne`: the row in the backoffice shape, with its group and cPanel as loaded
        from `groups` and `cpanels`; an unknown id is `NotFound`. */
    function FindOne(id: int, groups: map<nat, GroupInfo>, cpanels: map<nat, CpanelInfo>): (r: Result<DomainResponse>)
      reads this
      ensures r.Err? <==> forall i :: 0 <= i < |rows| ==> rows[i].id != id
      ensures r.Err? ==> r.error == NotFound(NotFoundMessage(id))
      ensures r.Ok? ==> exists i :: (0 <= i < |rows| && rows[i].id == id
        && r.value == ToResponse(rows[i], GroupOf(rows[i], groups), CpanelOf(rows[i], cpanels)))
    {
      var k := IndexOfId(rows, id);
      if k.None? then Err(NotFound(NotFoundMessage(id)))
      else Ok(ToResponse(rows[k.value], GroupOf(rows[k.value], groups), CpanelOf(rows[k.value], cpanels)))
    }

    /** `getSyncMetadata` over the log. */
    function Metadata(): (r: SyncMetadata)
      reads this
      ensures r.lastDomainSync.None? <==> forall i :: 0 <= i < |log| ==> log[i].serviceName != SyncLog.DomainSync
      ensures r.lastNawalaCheck.None? <==> forall i :: 0 <= i < |log| ==> log[i].serviceName != NawalaCheck
      ensures r.lastNameServerRefresh.None? <==>
        forall i :: 0 <= i < |log| ==> log[i].serviceName != NameServerRefresh
    {
      GetSyncMetadata(log)
    }

    /** The do-while page loop of `syncFromNamecheap`: page 1, 2, ... of 100, each page's
        items appended, until a page that is not full. */
    method FetchAllPages(pages: seq<Result<seq<RegistrarItem>>>) returns (r: Result<seq<RegistrarItem>>)
      ensures r == FetchFrom(pages, 1)
    {
      var all: seq<RegistrarItem> := [];
      var page: nat := 1;
      var hasMore := true;
      assert FetchFrom(pages, 1) == PrependItems([], FetchFrom(pages, 1)) by {
        if FetchFrom(pages, 1).Ok? {
          assert [] + FetchFrom(pages, 1).value == FetchFrom(pages, 1).value;
        }
      }
      while hasMore
        invariant 1 <= page <= |pages| + 2
        invariant hasMore ==> page <= |pages| + 1
        invariant hasMore ==> FetchFrom(pages, 1) == PrependItems(all, FetchFrom(pages, page))
        invariant !hasMore ==> FetchFrom(pages, 1) == Ok(all)
        decreases |pages| + 2 - page
      {
        var batch := PageAt(pages, page);
        if batch.Err? {
          return Err(batch.error);
        }
        var tail := FetchFrom(pages, page + 1);
        if |batch.value| == PAGE_SIZE && tail.Ok? {
          assert all + (batch.value + tail.value) == (all + batch.value) + tail.value;
        }
        if page > |pages| {
          assert all + [] == all;
        }
        all := all + batch.value;
        hasMore := |batch.value| == PAGE_SIZE;
        page := page + 1;
      }
      return Ok(all);
    }

    /** `syncFromNamecheap`: fetch every page, then merge the items one by one. Each item
        is written as soon as it is merged, so an unparsable expiry date ends the run with
        every earlier item already stored. */
    method SyncFromNamecheap(pages: seq<Result<seq<RegistrarItem>>>, now: int) returns (r: Result<SyncCounts>)
      requires Valid()
      modifies this
      ensures Valid() && log == old(log)
      ensures FetchFrom(pages, 1).Err? ==>
        r == Err(FetchFrom(pages, 1).error) && rows == old(rows) && nextId == old(nextId)
      ensures FetchFrom(pages, 1).Ok? ==>
        var items := FetchFrom(pages, 1).value;
        var (st, failure) := SyncItems(SyncState(old(rows), old(nextId), 0, 0), items, Expiries(items), now);
        && rows == st.rows && nextId == st.nextId
        && r == (if failure.Some? then Err(failure.value) else Ok(SyncCounts(st.added, st.updated)))
    {
      var fetched := FetchAllPages(pages);
      if fetched.Err? {
        return Err(fetched.error);
      }
      var items := fetched.value;
      r := MergeItems(items, Expiries(items), now);
    }

    /** The item loop of `syncFromNamecheap`, given each item's parsed expiry date: an
        item matched by registrar id or name is refreshed in place, any other appended
        under the next id; a date that did not parse ends the loop. */
    method MergeItems(items: seq<RegistrarItem>, parsed: seq<Result<Date>>, now: int) returns (r: Result<SyncCounts>)
      requires Valid() && |parsed| == |items|
      modifies this
      ensures Valid() && log == old(log)
      ensures var (st, failure) := SyncItems(SyncState(old(rows), old(nextId), 0, 0), items, parsed, now);
        && rows == st.rows && nextId == st.nextId
        && r == (if failure.Some? then Err(failure.value) else Ok(SyncCounts(st.added, st.updated)))
    {
      ghost var st0 := SyncState(rows, nextId, 0, 0);
      var added: nat := 0;
      var updated: nat := 0;
      var i := 0;
      while i < |items|
        invariant 0 <= i <= |items|
        invariant IdsBelow(rows, nextId) && log == old(log)
        invariant SyncItems(st0, items, parsed, now)
          == SyncItems(SyncState(rows, nextId, added, updated), items[i..], parsed[i..], now)
      {
        var item := items[i];
        var expiry := parsed[i];
        assert parsed[i..][0] == expiry && items[i..][0] == item;
        if expiry.Err? {
          return Err(expiry.error);
        }
        ghost var cur := SyncState(rows, nextId, added, updated);
        assert items[i..][1..] == items[i + 1..] && parsed[i..][1..] == parsed[i + 1..];
        var k := MatchIndex(rows, item);
        if k.Some? {
          rows := rows[k.value := Refreshed(rows[k.value], item, expiry.value)];
          updated := updated + 1;
        } else {
          rows := rows + [NewRow(nextId, item, expiry.value, now)];
          nextId := nextId + 1;
          added := added + 1;
        }
        assert SyncState(rows, nextId, added, updated) == Apply(cur, item, expiry.value, now);
        i := i + 1;
      }
      return Ok(SyncCounts(added, updated));
    }

    /** `refreshNameServers`: every row in id order, 50 at a time, each given the name
        servers its own lookup returned; the count is the number of rows. */
    method RefreshNameServers(resolve: string -> Option<seq<string>>) returns (updated: nat)
      requires Valid()
      modifies this
      ensures Valid() && nextId == old(nextId) && log == old(log)
      ensures rows == RefreshAll(old(rows), resolve)
      ensures updated == |old(rows)|
    {
      ghost var before := rows;
      ghost var target := RefreshAll(rows, resolve);
      updated := 0;
      var i: nat := 0;
      while i < |rows|
        invariant |rows| == |before| == |target| && updated <= |rows|
        invariant i < |rows| ==> updated == i
        invariant i >= |rows| ==> updated == |rows|
        invariant forall k :: 0 <= k < updated ==> rows[k] == target[k]
        invariant forall k :: updated <= k < |rows| ==> rows[k] == before[k]
        invariant nextId == old(nextId) && log == old(log)
      {
        var end := if i + NS_BATCH < |rows| then i + NS_BATCH else |rows|;
        var j := i;
        while j < end
          invariant i <= j <= end && |rows| == |before|
          invariant forall k :: 0 <= k < j ==> rows[k] == target[k]
          invariant forall k :: j <= k < |rows| ==> rows[k] == before[k]
          invariant nextId == old(nextId) && log == old(log)
        {
          var d := rows[j];
          var ns := LookupNameservers(resolve(d.name));
          if |ns| > 0 {
            rows := rows[j := d.(nameServer1 := Some(ns[0]), nameServer2 := if |ns| > 1 then Some(ns[1]) else None)];
          }
          assert rows[j] == target[j];
          j := j + 1;
        }
        updated := updated + (end - i);
        i := i + NS_BATCH;
      }
      assert rows == target;
      assert forall k :: 0 <= k < |target| ==> target[k].id == before[k].id;
    }

    /** `runNameServerRefresh`: the refresh, then one `NameServerRefresh` log entry. */
    method RunNameServerRefresh(resolve: string -> Option<seq<string>>, now: int) returns (updated: nat)
      requires Valid()
      modifies this
      ensures Valid() && nextId == old(nextId)
      ensures rows == RefreshAll(old(rows), resolve) && updated == |old(rows)|
      ensures log == Record(old(log), NameServerRefresh, now)
    {
      updated := RefreshNameServers(resolve);
      log := Record(log, NameServerRefresh, now);
    }

    /** `domainSync`: the registrar sync, then the name-server refresh, then one
        `DomainSync` log entry; a failed sync skips the other two. */
    method DomainSync(pages: seq<Result<seq<RegistrarItem>>>, resolve: string -> Option<seq<string>>, now: int)
      returns (r: Result<DomainSyncCounts>)
      requires Valid()
      modifies this
      ensures Valid()
      ensures FetchFrom(pages, 1).Err? ==>
        r == Err(FetchFrom(pages, 1).error) && rows == old(rows) && nextId == old(nextId) && log == old(log)
      ensures FetchFrom(pages, 1).Ok? ==>
        var items := FetchFrom(pages, 1).value;
        var (st, failure) := SyncItems(SyncState(old(rows), old(nextId), 0, 0), items, Expiries(items), now);
        && (r.Err? <==> exists k :: 0 <= k < |items| && ParseExpires(items[k].expires).Err?)
        && (failure.Some? ==> r == Err(failure.value) && rows == st.rows && nextId == st.nextId && log == old(log))
        && (failure.None? ==>
              && r == Ok(DomainSyncCounts(st.added, st.updated, |st.rows|))
              && rows == RefreshAll(st.rows, resolve) && nextId == st.nextId
              && log == Record(old(log), SyncLog.DomainSync, now))
    {
      ghost var fetched := FetchFrom(pages, 1);
      if fetched.Ok? {
        var items := fetched.value;
        SyncItemsCounts(SyncState(old(rows), old(nextId), 0, 0), items, Expiries(items), now);
      }
      var synced := SyncFromNamecheap(pages, now);
      if synced.Err? {
        return Err(synced.error);
      }
      var ns := RefreshNameServers(resolve);
      log := Record(log, SyncLog.DomainSync, now);
      return Ok(DomainSyncCounts(synced.value.added, synced.value.updated, ns));
    }
  
    // -------------------------------------------------------------------------
    // reactivate, renew, getInfo

    /** The refresh shared by `reactivate` and `renew`: look row `k` up in the
        registrar's first page and copy the status fields of the first match. */
    method RefreshFromFirstPage(k: nat, creds: Result<NamecheapConfig.Credentials>, fetch: Namecheap.Fetch)
      returns (r: Result<DomainResponse>)
      requires Valid() && k < |rows|
      modifies this
      ensures Valid() && nextId == old(nextId) && log == old(log)
      ensures var after := Refetched(old(rows)[k], Namecheap.GetList(creds, FIRST_PAGE, fetch));
        && (after.Err? ==> r == Err(after.error) && rows == old(rows))
        && (after.Ok? ==> r == Ok(ToResponse(after.value, None, None)) && rows == old(rows)[k := after.value])
    {
      var list := Namecheap.GetList(creds, FIRST_PAGE, fetch);
      r := RefreshFrom(k, list);
    }

    /** Row `k` refreshed from a fetched list. */
    method RefreshFrom(k: nat, list: Result<Namecheap.DomainList>) returns (r: Result<DomainResponse>)
      requires Valid() && k < |rows|
      modifies this
      ensures Valid() && nextId == old(nextId) && log == old(log)
      ensures var after := Refetched(old(rows)[k], list);
        && (after.Err? ==> r == Err(after.error) && rows == old(rows))
        && (after.Ok? ==> r == Ok(ToResponse(after.value, None, None)) && rows == old(rows)[k := after.value])
    {
      var d := rows[k];
      if list.Err? {
        return Err(list.error);
      }
      var j := FindItem(list.value.domains, d);
      if j.Some? {
        var item := list.value.domains[j.value];
        var expiry := ParseExpires(item.expires);
        if expiry.Err? {
          return Err(expiry.error);
        }
        d := RefreshedStatus(d, item, expiry.value);
        ReplaceKeepsIds(rows, k, d, nextId);
        rows := rows[k := d];
      }
      return Ok(ToResponse(d, None, None));
    }

    /** `reactivate`: the registrar command for the row's name, then the refresh; its
        success flag is not consulted. */
    method Reactivate(id: int, creds: Result<NamecheapConfig.Credentials>, fetch: Namecheap.Fetch)
      returns (r: Result<DomainResponse>)
      requires Valid()
      modifies this
      ensures Valid() && nextId == old(nextId) && log == old(log)
      ensures IndexOfId(old(rows), id).None? ==> r == Err(NotFound(NotFoundMessage(id))) && rows == old(rows)
      ensures IndexOfId(old(rows), id).Some? ==> (
        var k := IndexOfId(old(rows), id).value;
        var after := AfterCommand(old(rows)[k], Namecheap.Reactivate(creds, old(rows)[k].name, fetch), creds, fetch);
        && (after.Err? ==> r == Err(after.error) && rows == old(rows))
        && (after.Ok? ==> r == Ok(ToResponse(after.value, None, None)) && rows == old(rows)[k := after.value]))
    {
      var k := IndexOfId(rows, id);
      if k.None? {
        return Err(NotFound(NotFoundMessage(id)));
      }
      var done := Namecheap.Reactivate(creds, rows[k.value].name, fetch);
      if done.Err? {
        return Err(done.error);
      }
      r := RefreshFromFirstPage(k.value, creds, fetch);
    }

    /** `renew`: the registrar command with the row's premium flag (false when unknown),
        then the refresh. */
    method Renew(id: int, years: int, creds: Result<NamecheapConfig.Credentials>, fetch: Namecheap.Fetch)
      returns (r: Result<DomainResponse>)
      requires Valid()
      modifies this
      ensures Valid() && nextId == old(nextId) && log == old(log)
      ensures IndexOfId(old(rows), id).None? ==> r == Err(NotFound(NotFoundMessage(id))) && rows == old(rows)
      ensures IndexOfId(old(rows), id).Some? ==> (
        var k := IndexOfId(old(rows), id).value;
        var d := old(rows)[k];
        var after := AfterCommand(d, Namecheap.Renew(creds, d.name, years, RenewOptionsFor(d), fetch), creds, fetch);
        && (after.Err? ==> r == Err(after.error) && rows == old(rows))
        && (after.Ok? ==> r == Ok(ToResponse(after.value, None, None)) && rows == old(rows)[k := after.value]))
    {
      var k := IndexOfId(rows, id);
      if k.None? {
        return Err(NotFound(NotFoundMessage(id)));
      }
      var d := rows[k.value];
      var done := Namecheap.Renew(creds, d.name, years, RenewOptionsFor(d), fetch);
      if done.Err? {
        return Err(done.error);
      }
      r := RefreshFromFirstPage(k.value, creds, fetch);
    }

    /** `getInfo`: the registrar's details next to the row; nothing is written. */
    function GetInfo(id: int, creds: Result<NamecheapConfig.Credentials>, fetch: Namecheap.Fetch): (r: Result<InfoView>)
      reads this
      ensures IndexOfId(rows, id).None? ==> r == Err(NotFound(NotFoundMessage(id)))
      ensures IndexOfId(rows, id).Some? ==>
        var d := rows[IndexOfId(rows, id).value];
        var info := Namecheap.GetInfo(creds, d.name, None, fetch);
        && (info.Err? ==> r == Err(info.error))
        && (info.Ok? ==> r.Ok? && r.value.domain == ToResponse(d, None, None))
    {
      var k := IndexOfId(rows, id);
      if k.None? then Err(NotFound(NotFoundMessage(id)))
      else
        var info := Namecheap.GetInfo(creds, rows[k.value].name, None, fetch);
        if info.Err? then Err(info.error) else Ok(InfoOf(rows[k.value], info.value))
    }

    // -------------------------------------------------------------------------
    // create, update, setNameServers, remove

    /** `create`: a new row under the next id. */
    method Create(dto: CreateDto, now: int) returns (d: Domain)
      requires Valid()
      modifies this
      ensures Valid() && log == old(log)
      ensures d == CreatedRow(old(nextId), dto, now)
      ensures rows == old(rows) + [d] && nextId == old(nextId) + 1
    {
      d := CreatedRow(nextId, dto, now);
      rows := rows + [d];
      nextId := nextId + 1;
    }

    /** `update`: each provided field written into the row in place. */
    method Update(id: int, dto: UpdateDto) returns (r: Result<Domain>)
      requires Valid()
      modifies this
      ensures Valid() && nextId == old(nextId) && log == old(log)
      ensures IndexOfId(old(rows), id).None? ==> r == Err(NotFound(NotFoundMessage(id))) && rows == old(rows)
      ensures IndexOfId(old(rows), id).Some? ==>
        var k := IndexOfId(old(rows), id).value;
        && r == Ok(UpdatedRow(old(rows)[k], dto))
        && rows == old(rows)[k := UpdatedRow(old(rows)[k], dto)]
    {
      var k := IndexOfId(rows, id);
      if k.None? {
        return Err(NotFound(NotFoundMessage(id)));
      }
      var d := UpdatedRow(rows[k.value], dto);
      ReplaceKeepsIds(rows, k.value, d, nextId);
      rows := rows[k.value := d];
      return Ok(d);
    }

    /** `setNameServers`: both name servers overwritten. */
    method SetNameServers(id: int, nameServer1: string, nameServer2: string) returns (r: Result<Domain>)
      requires Valid()
      modifies this
      ensures Valid() && nextId == old(nextId) && log == old(log)
      ensures IndexOfId(old(rows), id).None? ==> r == Err(NotFound(NotFoundMessage(id))) && rows == old(rows)
      ensures IndexOfId(old(rows), id).Some? ==>
        var k := IndexOfId(old(rows), id).value;
        var d := old(rows)[k].(nameServer1 := Some(nameServer1), nameServer2 := Some(nameServer2));
        r == Ok(d) && rows == old(rows)[k := d]
    {
      var k := IndexOfId(rows, id);
      if k.None? {
        return Err(NotFound(NotFoundMessage(id)));
      }
      var d := rows[k.value].(nameServer1 := Some(nameServer1), nameServer2 := Some(nameServer2));
      ReplaceKeepsIds(rows, k.value, d, nextId);
      rows := rows[k.value := d];
      return Ok(d);
    }

    /** `remove`: the row deleted; `None` is success. */
    method Remove(id: int) returns (err: Option<Failure>)
      requires Valid()
      modifies this
      ensures Valid() && nextId == old(nextId) && log == old(log)
      ensures IndexOfId(old(rows), id).None? ==> err == Some(NotFound(NotFoundMessage(id))) && rows == old(rows)
      ensures IndexOfId(old(rows), id).Some? ==>
        var k := IndexOfId(old(rows), id).value;
        err.None? && rows == old(rows)[..k] + old(rows)[k + 1..]
    {
      var k := IndexOfId(rows, id);
      if k.None? {
        return Some(NotFound(NotFoundMessage(id)));
      }
      ghost var before := rows;
      rows := rows[..k.value] + rows[k.value + 1..];
      assert forall j :: 0 <= j < |rows| ==> rows[j] == if j < k.value then before[j] else before[j + 1];
      return None;
    }

    // -------------------------------------------------------------------------
    // Nawala

    /** The write loop shared by both merges: each used row whose verdict is found under
        its key, or under its key without "www.", and differs takes it. */
    method WriteVerdicts(m: map<string, bool>) returns (updated: nat)
      requires Valid()
      modifies this
      ensures Valid() && nextId == old(nextId) && log == old(log)
      ensures rows == MergeAll(old(rows), m)
      ensures updated == CountWrites(old(rows), m)
    {
      var merged;
      merged, updated := MergeVerdicts(rows, m);
      MergeKeepsIds(rows, m, nextId);
      rows := merged;
    }

    /** `refreshNawalaInProcess`: the used names, ordered by name, checked 50 at a time
        into one map; the rows are written once, after every batch succeeded. */
    method RefreshNawalaInProcess(check: seq<string> -> Result<seq<CheckResult>>, now: int) returns (r: Result<Counts>)
      requires Valid()
      modifies this
      ensures Valid() && nextId == old(nextId)
      ensures (r, rows, log) == InProcessOutcome(old(rows), old(log), check, now)
    {
      var names := UsedNames(rows);
      if |names| == 0 {
        return Ok(Counts(0, 0));
      }
      var failure, m := CheckBatches(names, check);
      if failure.Some? {
        return Err(failure.value);
      }
      var used := UsedRows(rows);
      var updated := WriteVerdicts(m);
      log := Record(log, NawalaCheck, now);
      return Ok(Counts(|used|, updated));
    }

    /** `applyNawalaResultsFromCron`: nothing for no results; otherwise the map from the
        given results, the writes, and one log entry. */
    method ApplyNawalaResultsFromCron(results: seq<CheckResult>, now: int) returns (r: Counts)
      requires Valid()
      modifies this
      ensures Valid() && nextId == old(nextId)
      ensures (r, rows, log) == CronOutcome(old(rows), old(log), results, now)
    {
      if |results| == 0 {
        return Counts(0, 0);
      }
      var m := AddResults(map[], results);
      var used := UsedRows(rows);
      var updated := WriteVerdicts(m);
      log := Record(log, NawalaCheck, now);
      return Counts(|used|, updated);
    }

    /** `refreshNawala`: scheduling with `at` reports `started` and does nothing here;
        a script run is read by `Classify` (its writes happen in the process it calls
        back); without a script the check runs in process. */
    method RefreshNawala(route: NawalaRoute, parseJson: string -> Option<Value>,
                         check: seq<string> -> Result<seq<CheckResult>>, now: int)
      returns (r: Result<NawalaRefresh>)
      requires Valid()
      modifies this
      ensures Valid() && nextId == old(nextId)
      ensures route.ScheduledWithAt? ==> r == Ok(NawalaRefresh(0, 0, true)) && rows == old(rows) && log == old(log)
      ensures route.ScriptRun? ==> (
        var c := Classify(route.result, parseJson);
        && rows == old(rows) && log == old(log)
        && r == (if c.Err? then Err(c.error) else Ok(NawalaRefresh(c.value.checked, c.value.updated, false))))
      ensures route.InProcess? ==> (
        var (c, after, afterLog) := InProcessOutcome(old(rows), old(log), check, now);
        && rows == after && log == afterLog
        && r == (if c.Err? then Err(c.error) else Ok(NawalaRefresh(c.value.checked, c.value.updated, false))))
    {
      match route
      case ScheduledWithAt =>
        return Ok(NawalaRefresh(0, 0, true));
      case ScriptRun(result) =>
        var c := Classify(result, parseJson);
        if c.Err? {
          return Err(c.error);
        }
        return Ok(NawalaRefresh(c.value.checked, c.value.updated, false));
      case InProcess =>
        var c := RefreshNawalaInProcess(check, now);
        if c.Err? {
          return Err(c.error);
        }
        return Ok(NawalaRefresh(c.value.checked, c.value.updated, false));
    }

    // -------------------------------------------------------------------------
    // bulkMarkUsedFromFile

    /** `bulkMarkUsedFromFile`: the file's names, each marking the first row with that
        key as used when it is not already. */
    method BulkMarkUsedFromFile(text: string) returns (matched: nat, updated: nat)
      requires Valid()
      modifies this
      ensures Valid() && nextId == old(nextId) && log == old(log)
      ensures var names := FileNames(text); var keys := RowKeys(old(rows));
        && rows == MarkUsed(old(rows), names)
        && matched == Matched(names, keys)
        && updated == Updated(old(rows), keys, names)
    {
      var names := FileNames(text);
      if |names| == 0 {
        NoNamesNoMarks(rows);
        return 0, 0;
      }
      var keys := RowKeys(rows);
      var nameToRow := FirstRows(keys);
      MarkingKeepsIds(rows, names, nextId);
      rows, updated := MarkNames(rows, keys, nameToRow, names);
      matched := CountMatched(names, keys, nameToRow);
    }
  }

  /** The marking loop of `bulkMarkUsedFromFile`, over the names in file order. */
  method MarkNames(before: seq<Domain>, keys: seq<string>, nameToRow: map<string, nat>, names: seq<string>)
    returns (rows: seq<Domain>, updated: nat)
    requires keys == RowKeys(before) && NoDuplicates(names)
    requires forall k :: k in nameToRow <==> k in keys
    requires forall k :: k in nameToRow ==> nameToRow[k] < |keys| && FirstIndex(keys, k) == Some(nameToRow[k])
    ensures rows == MarkUsed(before, names)
    ensures updated == Updated(before, keys, names)
  {
    rows := before;
    updated := 0;
    var j := 0;
    assert MarkUsed(before, names[..0]) == before by { NoNamesNoMarks(before); assert names[..0] == []; }
    while j < |names|
      invariant 0 <= j <= |names|
      invariant rows == MarkUsed(before, names[..j])
      invariant updated == Updated(before, keys, names[..j])
    {
      var name := names[j];
      MarkUsedStep(before, names, j);
      assert names[..j + 1][..j] == names[..j];
      if name in nameToRow {
        var i := nameToRow[name];
        if !rows[i].isUsed {
          rows := rows[i := rows[i].(isUsed := true)];
          updated := updated + 1;
        }
      }
      j := j + 1;
    }
    assert names[..|names|] == names;
  }

  /** Marking one more name touches at most the first row with that key, which the
      earlier names left alone. */
  lemma MarkUsedStep(before: seq<Domain>, names: seq<string>, j: nat)
    requires NoDuplicates(names) && j < |names|
    ensures var keys := RowKeys(before); var f := FirstIndex(keys, names[j]);
      var prev := MarkUsed(before, names[..j]);
      && (f.Some? ==> prev[f.value] == before[f.value])
      && MarkUsed(before, names[..j + 1])
           == if f.Some? && !before[f.value].isUsed then prev[f.value := before[f.value].(isUsed := true)] else prev
  {
    var keys := RowKeys(before);
    var f := FirstIndex(keys, names[j]);
    var prev := MarkUsed(before, names[..j]);
    var next := MarkUsed(before, names[..j + 1]);
    assert names[..j + 1] == names[..j] + [names[j]];
    assert names[j] !in names[..j];
    var want := if f.Some? && !before[f.value].isUsed then prev[f.value := before[f.value].(isUsed := true)] else prev;
    forall i | 0 <= i < |before|
      ensures next[i] == want[i]
    {
      if f.Some? && i == f.value {
        assert IsFirst(keys, i);
      }
    }
  }

  /** The matching loop of `bulkMarkUsedFromFile`: the names some row carries. */
  method CountMatched(names: seq<string>, keys: seq<string>, nameToRow: map<string, nat>) returns (matched: nat)
    requires forall k :: k in nameToRow <==> k in keys
    ensures matched == Matched(names, keys)
  {
    matched := 0;
    var j := 0;
    while j < |names|
      invariant 0 <= j <= |names|
      invariant matched == Matched(names[..j], keys)
    {
      assert names[..j + 1][..j] == names[..j];
      if names[j] in nameToRow {
        matched := matched + 1;
      }
      j := j + 1;
    }
    assert names[..|names|] == names;
  }

  /** The batch loop of `refreshNawalaInProcess`: `check` on 50 names at a time, each
      batch's results recorded into one map; the first failing batch ends it. */
  method CheckBatches(names: seq<string>, check: seq<string> -> Result<seq<CheckResult>>)
    returns (failure: Option<Failure>, m: map<string, bool>)
    ensures CheckAll(names, check).Err? <==> failure.Some?
    ensures failure.Some? ==> failure.value == CheckAll(names, check).error
    ensures failure.None? ==> m == ResultsMap(CheckAll(names, check).value)
  {
    m := map[];
    ghost var all: seq<CheckResult> := [];
    var i: nat := 0;
    assert From(names, 0) == names;
    PrependNothing(CheckAll(names, check));
    while i < |names|
      invariant CheckAll(names, check) == PrependResults(all, CheckAll(From(names, i), check))
      invariant m == ResultsMap(all)
      decreases |names| - i
    {
      var end := if i + NAWALA_BATCH < |names| then i + NAWALA_BATCH else |names|;
      var results := check(names[i..end]);
      CheckAllStep(names, i, check);
      if results.Err? {
        return Some(results.error), m;
      }
      m := AddResults(m, results.value);
      ResultsMapAppend(all, results.value);
      PrependTwice(all, results.value, CheckAll(From(names, i + NAWALA_BATCH), check));
      all := all + results.value;
      i := i + NAWALA_BATCH;
    }
    assert From(names, i) == [];
    assert all + [] == all;
    return None, m;
  }

  lemma PrependNothing(r: Result<seq<CheckResult>>)
    ensures PrependResults([], r) == r
  {
    if r.Ok? {
      assert [] + r.value == r.value;
    }
  }

  lemma PrependTwice(a: seq<CheckResult>, b: seq<CheckResult>, r: Result<seq<CheckResult>>)
    ensures PrependResults(a, PrependResults(b, r)) == PrependResults(a + b, r)
  {
    if r.Ok? {
      assert a + (b + r.value) == (a + b) + r.value;
    }
  }

  /** One batch of the recursion, read from position `i`. */
  lemma CheckAllStep(names: seq<string>, i: nat, check: seq<string> -> Result<seq<CheckResult>>)
    requires i < |names|
    ensures var end := if i + NAWALA_BATCH < |names| then i + NAWALA_BATCH else |names|;
      CheckAll(From(names, i), check)
        == (match check(names[i..end])
            case Err(e) => Err(e)
            case Ok(rs) => PrependResults(rs, CheckAll(From(names, i + NAWALA_BATCH), check)))
  {
    var end := if i + NAWALA_BATCH < |names| then i + NAWALA_BATCH else |names|;
    var rest := From(names, i);
    assert rest[..end - i] == names[i..end];
    assert rest[end - i..] == From(names, i + NAWALA_BATCH);
  }

  /** The map of a longer run of results continues the map of its prefix. */
  lemma ResultsMapAppend(all: seq<CheckResult>, rs: seq<CheckResult>)
    ensures ResultsMap(all + rs) == Fold(ResultsMap(all), KeyAll(rs))
  {
    assert KeyAll(all + rs) == KeyAll(all) + KeyAll(rs);
    FoldAppend(map[], KeyAll(all), KeyAll(rs));
  }

  /** Recording results into the map, one by one: the key, and the key without "www."
      when that differs. */
  method AddResults(m0: map<string, bool>, rs: seq<CheckResult>) returns (m: map<string, bool>)
    ensures m == Fold(m0, KeyAll(rs))
  {
    m := m0;
    var j := 0;
    while j < |rs|
      invariant 0 <= j <= |rs|
      invariant m == Fold(m0, KeyAll(rs[..j]))
    {
      var key := NameKey(rs[j].domain);
      ghost var prev := m;
      m := m[key := rs[j].blocked];
      var withoutWww := StripWww(key);
      if withoutWww != key {
        m := m[withoutWww := rs[j].blocked];
      }
      assert m == AddResult(prev, KeyOf(rs[j]));
      FoldPrefixStep(m0, rs, j);
      j := j + 1;
    }
    assert rs[..|rs|] == rs;
  }

  /** Recording one more result extends the fold by one step. */
  lemma FoldPrefixStep(m0: map<string, bool>, rs: seq<CheckResult>, j: nat)
    requires j < |rs|
    ensures Fold(m0, KeyAll(rs[..j + 1])) == AddResult(Fold(m0, KeyAll(rs[..j])), KeyOf(rs[j]))
  {
    var prev := Fold(m0, KeyAll(rs[..j]));
    assert KeyAll(rs[..j + 1]) == KeyAll(rs[..j]) + [KeyOf(rs[j])];
    FoldAppend(m0, KeyAll(rs[..j]), [KeyOf(rs[j])]);
    assert [KeyOf(rs[j])][1..] == [];
    assert Fold(prev, [KeyOf(rs[j])]) == Fold(AddResult(prev, KeyOf(rs[j])), []);
  }

  /** `nameToDomain`: each key mapped to the first row that has it. */
  method FirstRows(keys: seq<string>) returns (m: map<string, nat>)
    ensures forall k :: k in m <==> k in keys
    ensures forall k :: k in m ==> m[k] < |keys| && FirstIndex(keys, k) == Some(m[k])
  {
    m := map[];
    var i := 0;
    while i < |keys|
      invariant 0 <= i <= |keys|
      invariant forall k :: k in m <==> k in keys[..i]
      invariant forall k :: k in m ==> m[k] < i && FirstIndex(keys, k) == Some(m[k])
    {
      assert keys[..i + 1] == keys[..i] + [keys[i]];
      if keys[i] !in m {
        FirstOccurrence(keys, i);
        m := m[keys[i] := i];
      }
      i := i + 1;
    }
    assert keys[..|keys|] == keys;
  }

  /** A key not seen before position `i` is first seen there. */
  lemma FirstOccurrence(keys: seq<string>, i: nat)
    requires i < |keys| && keys[i] !in keys[..i]
    ensures FirstIndex(keys, keys[i]) == Some(i)
  {
    forall j | 0 <= j < i
      ensures keys[j] != keys[i]
    {
      assert keys[..i][j] == keys[j];
    }
    assert keys[i] in keys;
  }

  /** Marking rows as used keeps their ids, so the table's id order and bound. */
  lemma MarkingKeepsIds(rows: seq<Domain>, names: seq<string>, nextId: nat)
    requires IdsBelow(rows, nextId)
    ensures IdsBelow(MarkUsed(rows, names), nextId)
  {
    MarkUsedMonotone(rows, names);
    var r := MarkUsed(rows, names);
    assert forall i :: 0 <= i < |rows| ==> r[i].id == rows[i].id;
  }

  /** The loop of `WriteVerdicts` over the rows, in table order. */
  method MergeVerdicts(before: seq<Domain>, m: map<string, bool>) returns (rows: seq<Domain>, updated: nat)
    ensures rows == MergeAll(before, m)
    ensures updated == CountWrites(before, m)
  {
    ghost var target := MergeAll(before, m);
    rows := before;
    updated := 0;
    var k := 0;
    while k < |rows|
      invariant 0 <= k <= |rows| == |before| == |target|
      invariant forall j :: 0 <= j < k ==> rows[j] == target[j]
      invariant forall j :: k <= j < |rows| ==> rows[j] == before[j]
      invariant updated == CountWrites(before[..k], m)
    {
      CountWritesStep(before, k, m);
      var wrote;
      rows, wrote := WriteVerdictAt(rows, k, m);
      if wrote {
        updated := updated + 1;
      }
      k := k + 1;
    }
    assert before[..|before|] == before;
  }

  /** One pass of the write loop, on row `k`: its verdict looked up under its key, then
      under its key without "www.", and written when it differs. */
  method WriteVerdictAt(rows: seq<Domain>, k: nat, m: map<string, bool>) returns (out: seq<Domain>, wrote: bool)
    requires k < |rows|
    ensures out == rows[k := if rows[k].isUsed then MergeRow(rows[k], m) else rows[k]]
    ensures wrote == Writes(rows[k], m)
  {
    var d := rows[k];
    out := rows;
    wrote := false;
    if d.isUsed {
      var key := NameKey(d.name);
      var keyNoWww := StripWww(key);
      var blocked := if key in m then Some(m[key]) else if keyNoWww in m then Some(m[keyNoWww]) else None;
      assert blocked == Lookup(m, d.name);
      if blocked.Some? && d.nawala != blocked.value {
        out := rows[k := d.(nawala := blocked.value)];
        wrote := true;
      }
    }
  }

  /** The writes of one more row. */
  lemma CountWritesStep(rows: seq<Domain>, k: nat, m: map<string, bool>)
    requires k < |rows|
    ensures CountWrites(rows[..k + 1], m) == CountWrites(rows[..k], m) + if Writes(rows[k], m) then 1 else 0
  {
    assert rows[..k + 1][..k] == rows[..k];
  }

  /** Merging verdicts keeps the ids, so the table's id order and bound. */
  lemma MergeKeepsIds(rows: seq<Domain>, m: map<string, bool>, nextId: nat)
    requires IdsBelow(rows, nextId)
    ensures IdsBelow(MergeAll(rows, m), nextId)
  {
    var r := MergeAll(rows, m);
    assert forall j :: 0 <= j < |r| ==> r[j].id == rows[j].id;
  }

  /** Replacing a row by one with the same id keeps the table's id order and bound. */
  lemma ReplaceKeepsIds(rows: seq<Domain>, k: nat, d: Domain, nextId: nat)
    requires IdsBelow(rows, nextId) && k < |rows| && d.id == rows[k].id
    ensures IdsBelow(rows[k := d], nextId)
  {
    var r := rows[k := d];
    assert forall j :: 0 <= j < |r| ==> r[j].id == rows[j].id;
  }
}

/** The registrar side of `DomainService`: the page loop and the per-item merge of
    `syncFromNamecheap`, and the single-item refresh that `reactivate` and `renew` do. */
module RegistrarSync {
  import opened Wrappers
  import opened DomainModel

  /** Items per registrar page; a shorter (or longer) page is the last one. */
  const PAGE_SIZE: nat := 100

  /** What `getList({ page: p, pageSize: 100 })` yields: the registrar's answers for pages
      1 to |pages|, and an empty page after them. */
  function PageAt(pages: seq<Result<seq<RegistrarItem>>>, p: nat): Result<seq<RegistrarItem>>
    requires p >= 1
  {
    if p <= |pages| then pages[p - 1] else Ok([])
  }

  /** The items of pages p, p + 1, ... up to and including the first page that is not
      full; the first failing request fails the whole fetch. */
  function FetchFrom(pages: seq<Result<seq<RegistrarItem>>>, p: nat): Result<seq<RegistrarItem>>
    requires p >= 1
    decreases |pages| + 1 - p
  {
    if p > |pages| then Ok([])
    else match pages[p - 1]
      case Err(e) => Err(e)
      case Ok(batch) =>
        if |batch| != PAGE_SIZE then Ok(batch)
        else match FetchFrom(pages, p + 1)
          case Err(e) => Err(e)
          case Ok(rest) => Ok(batch + rest)
  }

  predicate FullPages(pages: seq<Result<seq<RegistrarItem>>>, p: nat, q: nat)
    requires p >= 1
  {
    forall k :: p <= k < q ==> PageAt(pages, k).Ok? && |PageAt(pages, k).value| == PAGE_SIZE
  }

  /** The items of pages p to q - 1, in page order. */
  function Joined(pages: seq<Result<seq<RegistrarItem>>>, p: nat, q: nat): seq<RegistrarItem>
    requires 1 <= p <= q && FullPages(pages, p, q)
    decreases q - p
  {
    if p == q then [] else PageAt(pages, p).value + Joined(pages, p + 1, q)
  }

  /** When pages p to q - 1 are full and page q is the first short one, the fetched list
      is every item of pages p to q, in order. */
  lemma {:induction false} FetchStopsAtShortPage(pages: seq<Result<seq<RegistrarItem>>>, p: nat, q: nat)
    requires 1 <= p <= q && FullPages(pages, p, q)
    requires PageAt(pages, q).Ok? && |PageAt(pages, q).value| != PAGE_SIZE
    ensures FetchFrom(pages, p) == Ok(Joined(pages, p, q) + PageAt(pages, q).value)
    decreases q - p
  {
    if p == q {
      assert Joined(pages, p, q) == [];
      var last := PageAt(pages, q).value;
      assert [] + last == last;
      if q <= |pages| {
        assert pages[q - 1] == Ok(last);
      }
    } else {
      assert PageAt(pages, p).Ok? && |PageAt(pages, p).value| == PAGE_SIZE;
      assert p <= |pages|;
      FetchStopsAtShortPage(pages, p + 1, q);
      assert PageAt(pages, p).value + (Joined(pages, p + 1, q) + PageAt(pages, q).value)
          == Joined(pages, p, q) + PageAt(pages, q).value;
    }
  }

  /** When pages p to q - 1 are full and the request for page q fails, the fetch fails
      with that error. */
  lemma {:induction false} FetchFailsAtFailedPage(pages: seq<Result<seq<RegistrarItem>>>, p: nat, q: nat)
    requires 1 <= p <= q && FullPages(pages, p, q)
    requires PageAt(pages, q).Err?
    ensures FetchFrom(pages, p) == Err(PageAt(pages, q).error)
    decreases q - p
  {
    if p < q {
      assert PageAt(pages, p).Ok? && |PageAt(pages, p).value| == PAGE_SIZE;
      assert p <= |pages|;
      FetchFailsAtFailedPage(pages, p + 1, q);
    }
  }

  // ---------------------------------------------------------------------------
  // Matching an item to a row

  /** The first row whose registrar id is `id` (`findOne({ namecheapId })`). */
  function FirstWithNamecheapId(rows: seq<Domain>, id: string): (r: Option<nat>)
    ensures r.Some? ==> (r.value < |rows| && rows[r.value].namecheapId == Some(id)
      && forall j :: 0 <= j < r.value ==> rows[j].namecheapId != Some(id))
    ensures r.None? ==> forall j :: 0 <= j < |rows| ==> rows[j].namecheapId != Some(id)
  {
    if |rows| == 0 then None
    else if rows[0].namecheapId == Some(id) then Some(0)
    else match FirstWithNamecheapId(rows[1..], id)
      case None => None
      case Some(k) => Some(k + 1)
  }

  /** The first row called `name` (`findOne({ name })`). */
  function FirstWithName(rows: seq<Domain>, name: string): (r: Option<nat>)
    ensures r.Some? ==> (r.value < |rows| && rows[r.value].name == name
      && forall j :: 0 <= j < r.value ==> rows[j].name != name)
    ensures r.None? ==> forall j :: 0 <= j < |rows| ==> rows[j].name != name
  {
    if |rows| == 0 then None
    else if rows[0].name == name then Some(0)
    else match FirstWithName(rows[1..], name)
      case None => None
      case Some(k) => Some(k + 1)
  }

  /** The row an item is merged into: by registrar id when the item has one and a row
      carries it, otherwise by name. */
  function MatchIndex(rows: seq<Domain>, item: RegistrarItem): (r: Option<nat>)
    ensures r.Some? ==> (r.value < |rows|
      && (rows[r.value].namecheapId == Some(item.id) || rows[r.value].name == item.name))
  {
    var byId := if item.id != "" then FirstWithNamecheapId(rows, item.id) else None;
    if byId.Some? then byId else FirstWithName(rows, item.name)
  }

  /** An item with a non-empty id that some row carries goes to the first such row, even
      when an earlier row has the item's name; the name decides only otherwise. */
  lemma MatchPrecedence(rows: seq<Domain>, item: RegistrarItem)
    ensures item.id != "" && (exists j :: 0 <= j < |rows| && rows[j].namecheapId == Some(item.id)) ==>
      var k := MatchIndex(rows, item);
      k.Some? && rows[k.value].namecheapId == Some(item.id)
      && forall j :: 0 <= j < k.value ==> rows[j].namecheapId != Some(item.id)
    ensures (item.id == "" || forall j :: 0 <= j < |rows| ==> rows[j].namecheapId != Some(item.id)) ==>
      MatchIndex(rows, item) == FirstWithName(rows, item.name)
  {
  }

  // ---------------------------------------------------------------------------
  // The merge

  /** The registrar-owned fields a sync writes into a matched row. */
  function Refreshed(d: Domain, item: RegistrarItem, expiry: Date): (r: Domain)
    ensures SameUserFields(d, r)
  {
    d.(namecheapId := Some(item.id), name := item.name, user := Some(item.user),
       created := Some(item.created), expiryDate := expiry, isExpired := item.isExpired,
       isLocked := item.isLocked, autoRenew := item.autoRenew, whoisGuard := Some(item.whoisGuard),
       isPremium := Some(item.isPremium), isOurDns := Some(item.isOurDns), active := !item.isExpired)
  }

  /** The row a sync inserts for an unmatched item. */
  function NewRow(id: nat, item: RegistrarItem, expiry: Date, now: int): Domain {
    Domain(id, Some(item.id), item.name, Some(item.user), Some(item.created),
      item.isExpired, item.isLocked, item.autoRenew, Some(item.whoisGuard), Some(item.isPremium),
      Some(item.isOurDns), !item.isExpired, expiry, None, None, None, None,
      false, false, None, false, false, None, now)
  }

  /** Both an updated and an inserted row carry every registrar field of the item, with
      `active` the negation of `isExpired`. */
  predicate HoldsItem(d: Domain, item: RegistrarItem, expiry: Date) {
    && d.namecheapId == Some(item.id) && d.name == item.name && d.user == Some(item.user)
    && d.created == Some(item.created) && d.expiryDate == expiry && d.isExpired == item.isExpired
    && d.isLocked == item.isLocked && d.autoRenew == item.autoRenew
    && d.whoisGuard == Some(item.whoisGuard) && d.isPremium == Some(item.isPremium)
    && d.isOurDns == Some(item.isOurDns) && d.active == !item.isExpired
  }

  lemma NewRowDefaults(id: nat, item: RegistrarItem, expiry: Date, now: int)
    ensures var d := NewRow(id, item, expiry, now);
      && HoldsItem(d, item, expiry) && d.id == id
      && d.description.None? && !d.nawala && !d.isUsed && !d.isDefense && !d.isLinkAlt
      && d.nameServer1.None? && d.nameServer2.None? && d.cpanel.None? && d.group.None?
      && d.category.None?
  {
  }

  lemma RefreshedHoldsItem(d: Domain, item: RegistrarItem, expiry: Date)
    ensures HoldsItem(Refreshed(d, item, expiry), item, expiry)
  {
  }

  /** The table ids ascend and the next id is above all of them. */
  predicate IdsBelow(rows: seq<Domain>, nextId: nat) {
    && (forall i, j :: 0 <= i < j < |rows| ==> rows[i].id < rows[j].id)
    && (forall i :: 0 <= i < |rows| ==> rows[i].id < nextId)
  }

  datatype SyncState = SyncState(rows: seq<Domain>, nextId: nat, added: nat, updated: nat)

  /** One item after its expiry date parsed: update the matched row, or append a new one. */
  function Apply(st: SyncState, item: RegistrarItem, expiry: Date, now: int): (r: SyncState)
    ensures IdsBelow(st.rows, st.nextId) ==> IdsBelow(r.rows, r.nextId)
    ensures r.added + r.updated == st.added + st.updated + 1
    ensures |r.rows| == |st.rows| + (r.added - st.added)
  {
    match MatchIndex(st.rows, item)
    case Some(i) =>
      st.(rows := st.rows[i := Refreshed(st.rows[i], item, expiry)], updated := st.updated + 1)
    case None =>
      st.(rows := st.rows + [NewRow(st.nextId, item, expiry, now)], nextId := st.nextId + 1,
          added := st.added + 1)
  }

  /** A merge changes only the matched row, keeps its user fields, and gives it the
      item's registrar fields; or it appends one row holding the item. */
  lemma ApplyMergeSafety(st: SyncState, item: RegistrarItem, expiry: Date, now: int)
    ensures var r := Apply(st, item, expiry, now);
      match MatchIndex(st.rows, item)
      case Some(i) =>
        && |r.rows| == |st.rows| && r.added == st.added
        && SameUserFields(st.rows[i], r.rows[i]) && HoldsItem(r.rows[i], item, expiry)
        && (forall j :: 0 <= j < |st.rows| && j != i ==> r.rows[j] == st.rows[j])
      case None =>
        && r.rows[..|st.rows|] == st.rows && |r.rows| == |st.rows| + 1
        && r.rows[|st.rows|] == NewRow(st.nextId, item, expiry, now)
  {
  }

  /** Each item's expiry date as `parseExpires` reads it, in item order. */
  function Expiries(items: seq<RegistrarItem>): (r: seq<Result<Date>>)
    ensures |r| == |items|
    ensures forall k :: 0 <= k < |items| ==> r[k] == ParseExpires(items[k].expires)
    ensures forall k :: 0 <= k < |items| && r[k].Err? ==>
      r[k].error == Error("Invalid expires date: " + items[k].expires)
  {
    seq(|items|, k requires 0 <= k < |items| => ParseExpires(items[k].expires))
  }

  /** The items in order, each with its parsed expiry date (`Expiries(items)`); the first
      one whose date does not parse stops the run, after every earlier item was written. */
  function SyncItems(st: SyncState, items: seq<RegistrarItem>, parsed: seq<Result<Date>>, now: int)
    : (SyncState, Option<Failure>)
    requires |parsed| == |items|
    decreases |items|
  {
    if |items| == 0 then (st, None)
    else match parsed[0]
      case Err(e) => (st, Some(e))
      case Ok(expiry) => SyncItems(Apply(st, items[0], expiry, now), items[1..], parsed[1..], now)
  }

  /** The position, from `i` on, of the first failed parse. */
  function FirstErrFrom(parsed: seq<Result<Date>>, i: nat): (r: Option<nat>)
    requires i <= |parsed|
    ensures r.Some? ==> (i <= r.value < |parsed| && parsed[r.value].Err?
      && forall k :: i <= k < r.value ==> parsed[k].Ok?)
    ensures r.None? ==> forall k :: i <= k < |parsed| ==> parsed[k].Ok?
    decreases |parsed| - i
  {
    if i == |parsed| then None
    else if parsed[i].Err? then Some(i)
    else FirstErrFrom(parsed, i + 1)
  }

  /** How many items a run writes: all of them, or those before the first failed parse. */
  function Written(parsed: seq<Result<Date>>): (r: nat)
    ensures r <= |parsed|
    ensures forall k :: 0 <= k < r ==> parsed[k].Ok?
    ensures r < |parsed| ==> parsed[r].Err?
  {
    var bad := FirstErrFrom(parsed, 0);
    if bad.Some? then bad.value else |parsed|
  }

  lemma WrittenStep(parsed: seq<Result<Date>>)
    requires |parsed| > 0 && parsed[0].Ok?
    ensures Written(parsed) == Written(parsed[1..]) + 1
  {
    assert forall k :: 0 <= k < |parsed| - 1 ==> parsed[1..][k] == parsed[k + 1];
  }

  /** Every item before the first unparsable one is counted once, as added or as
      updated; that item stops the run with its parse error; the table keeps ascending ids. */
  lemma {:induction false} SyncItemsCounts(st: SyncState, items: seq<RegistrarItem>, parsed: seq<Result<Date>>, now: int)
    requires |parsed| == |items|
    ensures var (r, failure) := SyncItems(st, items, parsed, now);
      var done := Written(parsed);
      && r.added + r.updated == st.added + st.updated + done
      && |r.rows| == |st.rows| + (r.added - st.added)
      && r.added >= st.added
      && (IdsBelow(st.rows, st.nextId) ==> IdsBelow(r.rows, r.nextId))
      && failure == (if done < |items| then Some(parsed[done].error) else None)
    decreases |items|
  {
    if |items| > 0 {
      match parsed[0]
      case Err(e) =>
        assert Written(parsed) == 0;
      case Ok(expiry) =>
        WrittenStep(parsed);
        SyncItemsCounts(Apply(st, items[0], expiry, now), items[1..], parsed[1..], now);
        var done := Written(parsed);
        if done < |items| {
          assert parsed[1..][done - 1] == parsed[done];
        }
    }
  }

  // ---------------------------------------------------------------------------
  // Running the sync twice

  /** Some row carries both the item's registrar id and its name. */
  predicate Present(rows: seq<Domain>, item: RegistrarItem) {
    exists j :: 0 <= j < |rows| && rows[j].namecheapId == Some(item.id) && rows[j].name == item.name
  }

  /** No two items share an id or a name. */
  predicate Distinct(items: seq<RegistrarItem>) {
    forall a, b :: 0 <= a < b < |items| ==> items[a].id != items[b].id && items[a].name != items[b].name
  }

  predicate IdsGiven(items: seq<RegistrarItem>) {
    forall a :: 0 <= a < |items| ==> items[a].id != ""
  }

  lemma DistinctTail(items: seq<RegistrarItem>)
    requires |items| > 0 && Distinct(items)
    ensures Distinct(items[1..])
    ensures forall k :: 0 <= k < |items| - 1 ==>
      items[1..][k].id != items[0].id && items[1..][k].name != items[0].name
  {
    var rest := items[1..];
    forall a, b | 0 <= a < b < |rest|
      ensures rest[a].id != rest[b].id && rest[a].name != rest[b].name
    {
      assert rest[a] == items[a + 1] && rest[b] == items[b + 1];
    }
    forall k | 0 <= k < |rest|
      ensures rest[k].id != items[0].id && rest[k].name != items[0].name
    {
      assert rest[k] == items[k + 1];
    }
  }

  lemma ApplyMakesPresent(st: SyncState, item: RegistrarItem, expiry: Date, now: int)
    ensures Present(Apply(st, item, expiry, now).rows, item)
  {
    var r := Apply(st, item, expiry, now);
    match MatchIndex(st.rows, item)
    case Some(i) =>
      assert r.rows[i].namecheapId == Some(item.id) && r.rows[i].name == item.name;
    case None =>
      assert r.rows[|st.rows|].namecheapId == Some(item.id) && r.rows[|st.rows|].name == item.name;
  }

  lemma ApplyKeepsPresent(st: SyncState, item: RegistrarItem, expiry: Date, now: int, other: RegistrarItem)
    requires Present(st.rows, other)
    requires other.id != item.id && other.name != item.name
    ensures Present(Apply(st, item, expiry, now).rows, other)
  {
    var j :| 0 <= j < |st.rows| && st.rows[j].namecheapId == Some(other.id) && st.rows[j].name == other.name;
    var r := Apply(st, item, expiry, now);
    assert r.rows[j] == st.rows[j];
  }

  lemma {:induction false} SyncKeepsPresent(st: SyncState, items: seq<RegistrarItem>, parsed: seq<Result<Date>>,
                                            now: int, other: RegistrarItem)
    requires |parsed| == |items|
    requires Present(st.rows, other)
    requires forall k :: 0 <= k < |items| ==> items[k].id != other.id && items[k].name != other.name
    ensures Present(SyncItems(st, items, parsed, now).0.rows, other)
    decreases |items|
  {
    if |items| > 0 {
      match parsed[0]
      case Err(e) =>
      case Ok(expiry) =>
        ApplyKeepsPresent(st, items[0], expiry, now, other);
        assert forall k :: 0 <= k < |items| - 1 ==> items[1..][k] == items[k + 1];
        SyncKeepsPresent(Apply(st, items[0], expiry, now), items[1..], parsed[1..], now, other);
    }
  }

  /** After a complete run over items with distinct ids and names, every item is
      present in the table. */
  lemma {:induction false} SyncMakesPresent(st: SyncState, items: seq<RegistrarItem>, parsed: seq<Result<Date>>,
                                            now: int)
    requires |parsed| == |items|
    requires Distinct(items)
    requires SyncItems(st, items, parsed, now).1.None?
    ensures forall k :: 0 <= k < |items| ==> Present(SyncItems(st, items, parsed, now).0.rows, items[k])
    decreases |items|
  {
    if |items| > 0 {
      var expiry := parsed[0].value;
      var st1 := Apply(st, items[0], expiry, now);
      var rest := items[1..];
      assert SyncItems(st, items, parsed, now) == SyncItems(st1, rest, parsed[1..], now);
      ApplyMakesPresent(st, items[0], expiry, now);
      DistinctTail(items);
      SyncKeepsPresent(st1, rest, parsed[1..], now, items[0]);
      SyncMakesPresent(st1, rest, parsed[1..], now);
      forall k | 1 <= k < |items|
        ensures Present(SyncItems(st, items, parsed, now).0.rows, items[k])
      {
        assert items[k] == rest[k - 1];
      }
    }
  }

  /** When every item is already present, a run inserts nothing. */
  lemma {:induction false} PresentMeansNoInsert(st: SyncState, items: seq<RegistrarItem>, parsed: seq<Result<Date>>,
                                                now: int)
    requires |parsed| == |items|
    requires Distinct(items) && IdsGiven(items)
    requires forall k :: 0 <= k < |items| ==> Present(st.rows, items[k])
    ensures SyncItems(st, items, parsed, now).0.added == st.added
    decreases |items|
  {
    if |items| > 0 && parsed[0].Ok? {
      var expiry := parsed[0].value;
      var item := items[0];
      var rest := items[1..];
      var j :| 0 <= j < |st.rows| && st.rows[j].namecheapId == Some(item.id) && st.rows[j].name == item.name;
      assert item.id == items[0].id && item.id != "";
      assert FirstWithNamecheapId(st.rows, item.id).Some?;
      var st1 := Apply(st, item, expiry, now);
      assert st1.added == st.added;
      assert SyncItems(st, items, parsed, now) == SyncItems(st1, rest, parsed[1..], now);
      DistinctTail(items);
      forall k | 0 <= k < |rest|
        ensures Present(st1.rows, rest[k])
      {
        assert rest[k] == items[k + 1];
        ApplyKeepsPresent(st, item, expiry, now, rest[k]);
      }
      assert forall a :: 0 <= a < |rest| ==> rest[a] == items[a + 1];
      PresentMeansNoInsert(st1, rest, parsed[1..], now);
    }
  }

  /** The item's registrar id finds a row, and that row already holds the item. */
  predicate Settled(rows: seq<Domain>, item: RegistrarItem, expiry: Date) {
    var k := FirstWithNamecheapId(rows, item.id);
    k.Some? && HoldsItem(rows[k.value], item, expiry)
  }

  /** Merging an item into a row that already holds it changes no row. */
  lemma SettledApplyIsCount(st: SyncState, item: RegistrarItem, expiry: Date, now: int)
    requires item.id != "" && Settled(st.rows, item, expiry)
    ensures Apply(st, item, expiry, now) == st.(updated := st.updated + 1)
  {
    var i := FirstWithNamecheapId(st.rows, item.id).value;
    assert MatchIndex(st.rows, item) == Some(i);
    assert Refreshed(st.rows[i], item, expiry) == st.rows[i];
    assert st.rows[i := st.rows[i]] == st.rows;
  }

  /** After an item is merged, its registrar id finds the row it was written to. */
  lemma ApplySettles(st: SyncState, item: RegistrarItem, expiry: Date, now: int)
    requires item.id != ""
    ensures Settled(Apply(st, item, expiry, now).rows, item, expiry)
  {
    var r := Apply(st, item, expiry, now).rows;
    match MatchIndex(st.rows, item)
    case Some(i) =>
      RefreshedHoldsItem(st.rows[i], item, expiry);
      assert r[i].namecheapId == Some(item.id);
      forall j | 0 <= j < i
        ensures r[j].namecheapId != Some(item.id)
      {
        assert r[j] == st.rows[j];
        if FirstWithNamecheapId(st.rows, item.id).None? {
          assert st.rows[j].namecheapId != Some(item.id);
        }
      }
    case None =>
      NewRowDefaults(st.nextId, item, expiry, now);
      assert r[|st.rows|].namecheapId == Some(item.id);
      forall j | 0 <= j < |st.rows|
        ensures r[j].namecheapId != Some(item.id)
      {
        assert r[j] == st.rows[j];
      }
  }

  /** Merging an item with another id and name leaves a settled item settled. */
  lemma ApplyKeepsSettled(st: SyncState, item: RegistrarItem, expiry: Date, now: int,
                          other: RegistrarItem, otherExpiry: Date)
    requires Settled(st.rows, other, otherExpiry)
    requires other.id != item.id && other.name != item.name
    ensures Settled(Apply(st, item, expiry, now).rows, other, otherExpiry)
  {
    var i := FirstWithNamecheapId(st.rows, other.id).value;
    var r := Apply(st, item, expiry, now).rows;
    match MatchIndex(st.rows, item)
    case Some(m) =>
      assert m != i;
      assert r[i] == st.rows[i];
      forall j | 0 <= j < i
        ensures r[j].namecheapId != Some(other.id)
      {
        if j == m {
          assert r[j].namecheapId == Some(item.id);
        } else {
          assert r[j] == st.rows[j];
        }
      }
    case None =>
      assert r[i] == st.rows[i];
      forall j | 0 <= j < i
        ensures r[j].namecheapId != Some(other.id)
      {
        assert r[j] == st.rows[j];
      }
  }

  lemma {:induction false} SyncKeepsSettled(st: SyncState, items: seq<RegistrarItem>, parsed: seq<Result<Date>>,
                                            now: int, other: RegistrarItem, otherExpiry: Date)
    requires |parsed| == |items|
    requires Settled(st.rows, other, otherExpiry)
    requires forall k :: 0 <= k < |items| ==> items[k].id != other.id && items[k].name != other.name
    ensures Settled(SyncItems(st, items, parsed, now).0.rows, other, otherExpiry)
    decreases |items|
  {
    if |items| > 0 {
      match parsed[0]
      case Err(e) =>
      case Ok(expiry) =>
        ApplyKeepsSettled(st, items[0], expiry, now, other, otherExpiry);
        assert forall k :: 0 <= k < |items| - 1 ==> items[1..][k] == items[k + 1];
        SyncKeepsSettled(Apply(st, items[0], expiry, now), items[1..], parsed[1..], now, other, otherExpiry);
    }
  }

  /** After a complete run over items with distinct non-empty ids and distinct names,
      every item's registrar id finds a row holding that item. */
  lemma {:induction false} SyncSettles(st: SyncState, items: seq<RegistrarItem>, parsed: seq<Result<Date>>, now: int)
    requires |parsed| == |items|
    requires Distinct(items) && IdsGiven(items)
    requires SyncItems(st, items, parsed, now).1.None?
    ensures forall k :: 0 <= k < |items| ==>
      parsed[k].Ok? && Settled(SyncItems(st, items, parsed, now).0.rows, items[k], parsed[k].value)
    decreases |items|
  {
    if |items| > 0 {
      var expiry := parsed[0].value;
      var st1 := Apply(st, items[0], expiry, now);
      var rest := items[1..];
      assert SyncItems(st, items, parsed, now) == SyncItems(st1, rest, parsed[1..], now);
      ApplySettles(st, items[0], expiry, now);
      DistinctTail(items);
      assert IdsGiven(rest) by {
        assert forall k :: 0 <= k < |rest| ==> rest[k] == items[k + 1];
      }
      SyncKeepsSettled(st1, rest, parsed[1..], now, items[0], expiry);
      SyncSettles(st1, rest, parsed[1..], now);
      forall k | 1 <= k < |items|
        ensures parsed[k].Ok? && Settled(SyncItems(st, items, parsed, now).0.rows, items[k], parsed[k].value)
      {
        assert items[k] == rest[k - 1] && parsed[k] == parsed[1..][k - 1];
      }
    }
  }

  /** A run over items that are all settled writes nothing new: it only counts each
      item as updated. */
  lemma {:induction false} SettledSyncIsCount(st: SyncState, items: seq<RegistrarItem>, parsed: seq<Result<Date>>,
                                              now: int)
    requires |parsed| == |items| && IdsGiven(items)
    requires forall k :: 0 <= k < |items| ==> parsed[k].Ok? && Settled(st.rows, items[k], parsed[k].value)
    ensures SyncItems(st, items, parsed, now) == (st.(updated := st.updated + |items|), None)
    decreases |items|
  {
    if |items| > 0 {
      SettledApplyIsCount(st, items[0], parsed[0].value, now);
      var st1 := st.(updated := st.updated + 1);
      var rest, later := items[1..], parsed[1..];
      assert SyncItems(st, items, parsed, now) == SyncItems(st1, rest, later, now);
      forall k | 0 <= k < |rest|
        ensures rest[k].id != "" && later[k].Ok? && Settled(st1.rows, rest[k], later[k].value)
      {
        assert rest[k] == items[k + 1] && later[k] == parsed[k + 1];
      }
      SettledSyncIsCount(st1, rest, later, now);
    }
  }

  /** A second sync over the same registrar list, whose items have distinct non-empty ids
      and distinct names, inserts nothing, updates every item again and leaves every
      row and the next id exactly as the first sync left them. */
  lemma SyncIdempotent(st: SyncState, items: seq<RegistrarItem>, now: int, later: int)
    requires Distinct(items) && IdsGiven(items)
    requires SyncItems(st, items, Expiries(items), now).1.None?
    ensures var first := SyncItems(st, items, Expiries(items), now).0;
      var second := SyncItems(first.(added := 0, updated := 0), items, Expiries(items), later);
      && second.1.None? && second.0.added == 0 && second.0.updated == |items|
      && second.0.rows == first.rows && second.0.nextId == first.nextId
  {
    var parsed := Expiries(items);
    var first := SyncItems(st, items, parsed, now).0;
    SyncSettles(st, items, parsed, now);
    SettledSyncIsCount(first.(added := 0, updated := 0), items, parsed, later);
  }

  // ---------------------------------------------------------------------------
  // reactivate / renew

  /** `domains.find(d => d.name === domain.name || d.id === domain.namecheapId)`: the
      first item matching by name or by id; a row without a registrar id matches by
      name only. */
  function FindItem(items: seq<RegistrarItem>, d: Domain): (r: Option<nat>)
    ensures r.Some? ==> (r.value < |items|
      && (items[r.value].name == d.name || Some(items[r.value].id) == d.namecheapId)
      && forall k :: 0 <= k < r.value ==> items[k].name != d.name && Some(items[k].id) != d.namecheapId)
    ensures r.None? ==> forall k :: 0 <= k < |items| ==> items[k].name != d.name && Some(items[k].id) != d.namecheapId
  {
    if |items| == 0 then None
    else if items[0].name == d.name || Some(items[0].id) == d.namecheapId then Some(0)
    else match FindItem(items[1..], d)
      case None => None
      case Some(k) => Some(k + 1)
  }

  /** The fields `reactivate` and `renew` copy from the found item: the status fields,
      never the registrar id, the name, the user or the creation date. */
  function RefreshedStatus(d: Domain, item: RegistrarItem, expiry: Date): (r: Domain)
    ensures SameUserFields(d, r)
    ensures r.namecheapId == d.namecheapId && r.name == d.name && r.user == d.user && r.created == d.created
    ensures r.expiryDate == expiry && r.isExpired == item.isExpired && r.active == !item.isExpired
    ensures r.isLocked == item.isLocked && r.autoRenew == item.autoRenew
    ensures r.whoisGuard == Some(item.whoisGuard) && r.isPremium == Some(item.isPremium)
      && r.isOurDns == Some(item.isOurDns)
  {
    d.(expiryDate := expiry, isExpired := item.isExpired, isLocked := item.isLocked,
       autoRenew := item.autoRenew, whoisGuard := Some(item.whoisGuard),
       isPremium := Some(item.isPremium), isOurDns := Some(item.isOurDns), active := !item.isExpired)
  }
}

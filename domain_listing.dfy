/** `DomainService.findAll`: the query's filters, its `ORDER BY`, and the paging
    arithmetic (page clamp, page-size whitelist, offset and page count). */
module DomainListing {
  import opened Wrappers
  import opened Text
  import opened DomainModel
  import opened DomainOrder

  datatype SortBy = ByName | ByExpiryDate | ByCreated | ByStatus | ByUsed
  datatype StatusFilter = AllStatuses | Expired | NeedsRenewal | Active
  datatype UsedFilter = Used | NotUsed | AllUses
  datatype NawalaFilter = AllNawala | Blocked | NotBlocked

  /** The validated query; `None` is an absent parameter. */
  datatype Query = Query(
    sortBy: Option<SortBy>,
    sortOrder: Option<Dir>,
    search: Option<string>,
    cpanelId: Option<int>,
    unlinkedOnly: Option<bool>,
    status: Option<StatusFilter>,
    usedFilter: Option<UsedFilter>,
    nawalaFilter: Option<NawalaFilter>,
    isDefense: Option<bool>,
    isLinkAlt: Option<bool>,
    groupId: Option<int>,
    ungroupedOnly: Option<bool>,
    page: Option<int>,
    limit: Option<int>)

  // ---------------------------------------------------------------------------
  // Paging arithmetic

  /** `Math.max(1, query?.page ?? 1)` */
  function PageOf(q: Query): (r: int)
    ensures r >= 1
    ensures q.page.Some? && q.page.value >= 1 ==> r == q.page.value
    ensures q.page.None? || q.page.value < 1 ==> r == 1
  {
    var p := q.page.GetOr(1);
    if p > 1 then p else 1
  }

  predicate AllowedLimit(l: int) { l == 10 || l == 50 || l == 100 }

  /** `[10, 50, 100].includes(query?.limit ?? 10) ? query!.limit : 10`. An absent limit
      passes the test through the default and is then read back as `undefined` (`None`). */
  function LimitOf(q: Query): (r: Option<int>)
    ensures r.Some? ==> AllowedLimit(r.value)
  {
    match q.limit
    case None => None
    case Some(l) => if AllowedLimit(l) then Some(l) else Some(10)
  }

  /** The page size is the requested one when it is allowed, 10 when it is not, and
      undefined when none was requested. */
  lemma LimitCases(q: Query)
    ensures q.limit.None? ==> LimitOf(q).None?
    ensures q.limit.Some? && AllowedLimit(q.limit.value) ==> LimitOf(q) == q.limit
    ensures q.limit.Some? && !AllowedLimit(q.limit.value) ==> LimitOf(q) == Some(10)
  {
  }

  /** `(page - 1) * limit`; `NaN` (`None`) when the limit is undefined. */
  function OffsetOf(page: int, limit: Option<int>): Option<int> {
    if limit.None? then None else Some((page - 1) * limit.value)
  }

  /** `Math.ceil(total / limit)`; `NaN` (`None`) when the limit is undefined. */
  function TotalPages(total: nat, limit: Option<int>): Option<int>
    requires limit.Some? ==> limit.value > 0
  {
    if limit.None? then None
    else Some((total + limit.value - 1) / limit.value)
  }

  /** The page count is the least number of pages of `limit` rows that hold every row. */
  lemma TotalPagesIsCeiling(total: nat, limit: int)
    requires limit > 0
    ensures var n := TotalPages(total, Some(limit)).value;
      n >= 0 && n * limit >= total && (n == 0 || (n - 1) * limit < total)
  {
    var n := (total + limit - 1) / limit;
    assert n * limit <= total + limit - 1 < (n + 1) * limit;
  }

  /** Each row position belongs to exactly one page between 1 and the page count. */
  lemma RowOnOnePage(total: nat, limit: int, j: nat)
    requires limit > 0 && j < total
    ensures var p := j / limit + 1;
      1 <= p <= TotalPages(total, Some(limit)).value
      && OffsetOf(p, Some(limit)).value <= j < OffsetOf(p, Some(limit)).value + limit
  {
    var q := j / limit;
    assert q * limit <= j < q * limit + limit;
    TotalPagesIsCeiling(total, limit);
    var n := TotalPages(total, Some(limit)).value;
    if n <= q {
      MulMono(n, q, limit);
    }
  }

  lemma MulMono(a: int, b: int, c: int)
    requires a <= b && c >= 0
    ensures a * c <= b * c
  {
  }

  /** The rows the database returns for a limit and offset. With both undefined or
      `NaN` the query builder drops them and the whole list is returned. */
  function Window<T>(s: seq<T>, limit: Option<int>, offset: Option<int>): (r: seq<T>)
    requires limit.Some? <==> offset.Some?
    requires limit.Some? ==> limit.value >= 0 && offset.value >= 0
    ensures limit.None? ==> r == s
    ensures limit.Some? ==> (
      && |r| <= limit.value
      && (forall i :: 0 <= i < |r| ==> offset.value + i < |s| && r[i] == s[offset.value + i])
      && |r| == if offset.value >= |s| then 0 else Min(limit.value, |s| - offset.value))
  {
    if limit.None? then s
    else
      var lo := Min(offset.value, |s|);
      var hi := Min(offset.value + limit.value, |s|);
      s[lo..hi]
  }

  function Min(a: int, b: int): int { if a < b then a else b }

  // ---------------------------------------------------------------------------
  // ILIKE

  /** SQL `LIKE`: `%` matches any run of characters, `_` any one character, and a
      backslash makes the next character literal. */
  predicate Like(pattern: string, s: string)
    decreases |pattern|, |s|
  {
    if |pattern| == 0 then |s| == 0
    else if pattern[0] == '%' then Like(pattern[1..], s) || (|s| > 0 && Like(pattern, s[1..]))
    else if pattern[0] == '_' then |s| > 0 && Like(pattern[1..], s[1..])
    else if pattern[0] == '\\' && |pattern| >= 2 then
      |s| > 0 && s[0] == pattern[1] && Like(pattern[2..], s[1..])
    else |s| > 0 && s[0] == pattern[0] && Like(pattern[1..], s[1..])
  }

  /** `name ILIKE '%search%'`, with the search text put into the pattern unescaped. */
  predicate SearchMatches(name: string, search: string) {
    Like(Lower("%" + search + "%"), Lower(name))
  }

  predicate Plain(w: string) {
    forall i :: 0 <= i < |w| ==> w[i] != '%' && w[i] != '_' && w[i] != '\\'
  }

  lemma {:induction false} PlainThenAny(w: string, s: string)
    requires Plain(w)
    ensures Like(w + "%", s) <==> StartsWith(s, w)
    decreases |w|
  {
    if |w| == 0 {
      assert w + "%" == "%";
      AnyMatches(s);
    } else if |s| > 0 {
      assert (w + "%")[1..] == w[1..] + "%";
      PlainThenAny(w[1..], s[1..]);
      if |s| > 0 && s[0] == w[0] && StartsWith(s[1..], w[1..]) {
        assert s[..|w|] == [s[0]] + s[1..][..|w| - 1];
      }
      if StartsWith(s, w) {
        assert s[1..][..|w| - 1] == s[..|w|][1..];
      }
    }
  }

  lemma {:induction false} AnyMatches(s: string)
    ensures Like("%", s)
    decreases |s|
  {
    if |s| > 0 {
      AnyMatches(s[1..]);
    }
  }

  predicate MatchesFrom(rest: string, s: string, k: int)
    requires 0 <= k <= |s|
  {
    Like(rest, s[k..])
  }

  lemma {:induction false} AnyThen(rest: string, s: string)
    ensures Like("%" + rest, s) <==> exists k :: 0 <= k <= |s| && MatchesFrom(rest, s, k)
    decreases |s|
  {
    var p := "%" + rest;
    assert p[1..] == rest;
    assert s[0..] == s;
    if Like(rest, s) {
      assert MatchesFrom(rest, s, 0);
    }
    if |s| > 0 {
      AnyThen(rest, s[1..]);
      if exists k :: 0 <= k <= |s| && MatchesFrom(rest, s, k) {
        var k :| 0 <= k <= |s| && MatchesFrom(rest, s, k);
        if k > 0 {
          assert s[1..][k - 1..] == s[k..];
          assert MatchesFrom(rest, s[1..], k - 1);
        }
      }
      if Like(p, s[1..]) {
        var k :| 0 <= k <= |s[1..]| && MatchesFrom(rest, s[1..], k);
        assert s[1..][k..] == s[k + 1..];
        assert MatchesFrom(rest, s, k + 1);
      }
    }
  }

  /** For a search without `%`, `_` or a backslash, the pattern test is a
      case-insensitive substring test. */
  lemma SearchIsSubstring(name: string, search: string)
    requires Plain(Lower(search))
    ensures SearchMatches(name, search) <==> Contains(Lower(name), Lower(search))
  {
    var w := Lower(search);
    var s := Lower(name);
    assert Lower("%" + search + "%") == "%" + (w + "%");
    AnyThen(w + "%", s);
    forall k | 0 <= k <= |s|
      ensures MatchesFrom(w + "%", s, k) <==> OccursAt(s, w, k)
    {
      PlainThenAny(w, s[k..]);
      if StartsWith(s[k..], w) {
        assert s[k..][..|w|] == s[k..k + |w|];
      }
      if OccursAt(s, w, k) {
        assert s[k..][..|w|] == s[k..k + |w|];
      }
    }
  }

  // ---------------------------------------------------------------------------
  // The WHERE clause

  /** The row passes every filter of the query. `from` and `to` are the dates of the
      instants `now` and `now + 7 days` that bound the needs-renewal window. */
  predicate Matches(d: Domain, q: Query, from: Date, to: Date) {
    var search := if q.search.Some? then Trim(q.search.value) else "";
    && (search != "" ==> SearchMatches(d.name, search))
    && (if q.unlinkedOnly == Some(true) then d.cpanel.None?
        else q.cpanelId.Some? ==> d.cpanel.Some? && d.cpanel.value == q.cpanelId.value)
    && (match q.status.GetOr(AllStatuses)
        case Expired => d.isExpired
        case Active => !d.isExpired
        case NeedsRenewal => !d.isExpired && DateLe(from, d.expiryDate) && DateLe(d.expiryDate, to)
        case AllStatuses => true)
    && (match q.usedFilter.GetOr(Used)
        case Used => d.isUsed
        case NotUsed => !d.isUsed
        case AllUses => true)
    && (match q.nawalaFilter.GetOr(AllNawala)
        case Blocked => d.nawala
        case NotBlocked => !d.nawala
        case AllNawala => true)
    && (q.isDefense == Some(true) ==> d.isDefense)
    && (q.isLinkAlt == Some(true) ==> d.isLinkAlt)
    && (if q.ungroupedOnly == Some(true) then d.group.None?
        else q.groupId.Some? ==> d.group.Some? && d.group.value == q.groupId.value)
  }

  function Filter(rows: seq<Domain>, q: Query, from: Date, to: Date): (r: seq<Domain>)
    ensures forall d :: d in r <==> d in rows && Matches(d, q, from, to)
    ensures |r| <= |rows|
  {
    if |rows| == 0 then []
    else
      var rest := Filter(rows[..|rows| - 1], q, from, to);
      var last := rows[|rows| - 1];
      assert forall d :: d in rows <==> d in rows[..|rows| - 1] || d == last;
      if Matches(last, q, from, to) then rest + [last] else rest
  }

  /** The `orderBy` record: the chosen column in the chosen direction, with the
      secondary key that `status` and `used` add. */
  function OrderKeys(q: Query): (r: seq<Key>)
    ensures |r| >= 1
    ensures r[0].dir == q.sortOrder.GetOr(Asc)
  {
    var dir := q.sortOrder.GetOr(Asc);
    match q.sortBy.GetOr(ByName)
    case ByName => [Key(Name, dir)]
    case ByExpiryDate => [Key(ExpiryDate, dir)]
    case ByCreated => [Key(CreatedAt, dir)]
    case ByStatus => [Key(IsExpired, dir), Key(ExpiryDate, Asc)]
    case ByUsed => [Key(IsUsed, dir), Key(Name, Asc)]
  }

  datatype Meta = Meta(total: nat, page: int, limit: Option<int>, totalPages: Option<int>)
  datatype Listing = Listing(data: seq<DomainResponse>, meta: Meta)

  /** The group a listed row shows: only `group` is populated by `findAll`, so the
      cpanel is always rendered as `null`. */
  function GroupOf(d: Domain, groups: map<nat, GroupInfo>): Option<GroupInfo> {
    if d.group.Some? && d.group.value in groups then Some(groups[d.group.value]) else None
  }

  function Responses(rows: seq<Domain>, groups: map<nat, GroupInfo>): (r: seq<DomainResponse>)
    ensures |r| == |rows|
    ensures forall i :: 0 <= i < |rows| ==> r[i] == ToResponse(rows[i], GroupOf(rows[i], groups), None)
  {
    seq(|rows|, i requires 0 <= i < |rows| => ToResponse(rows[i], GroupOf(rows[i], groups), None))
  }

  /** The rows of the requested page, in the requested order. */
  function Selected(rows: seq<Domain>, q: Query, from: Date, to: Date): seq<Domain> {
    var page := PageOf(q);
    var limit := LimitOf(q);
    Window(Sort(Filter(rows, q, from, to), OrderKeys(q)), limit, OffsetOf(page, limit))
  }

  /** `findAll` */
  function FindAll(rows: seq<Domain>, q: Query, from: Date, to: Date, groups: map<nat, GroupInfo>): (r: Listing)
    ensures r.meta.total == |Filter(rows, q, from, to)|
    ensures r.meta.page == PageOf(q) && r.meta.limit == LimitOf(q)
    ensures r.meta.totalPages == TotalPages(r.meta.total, r.meta.limit)
    ensures r.data == Responses(Selected(rows, q, from, to), groups)
  {
    var matching := Filter(rows, q, from, to);
    var limit := LimitOf(q);
    Listing(Responses(Selected(rows, q, from, to), groups), Meta(|matching|, PageOf(q), limit, TotalPages(|matching|, limit)))
  }

  /** Every listed row passes the filters and was in the table; the listed rows are in
      key order; with a page size, the page holds at most that many rows and starts at
      position `(page - 1) * limit` of the ordered matches. */
  lemma FindAllSound(rows: seq<Domain>, q: Query, from: Date, to: Date)
    ensures var sel := Selected(rows, q, from, to);
      && (forall d :: d in sel ==> d in rows && Matches(d, q, from, to))
      && SortedBy(sel, OrderKeys(q))
      && (LimitOf(q).Some? ==> |sel| <= LimitOf(q).value)
  {
    var matching := Filter(rows, q, from, to);
    var ordered := Sort(matching, OrderKeys(q));
    var sel := Selected(rows, q, from, to);
    forall d | d in sel
      ensures d in rows && Matches(d, q, from, to)
    {
      var i :| 0 <= i < |sel| && sel[i] == d;
      if LimitOf(q).Some? {
        assert d in ordered;
      }
      assert d in multiset(ordered);
    }
    var keys := OrderKeys(q);
    forall i | 0 <= i < |sel| - 1
      ensures Before(sel[i], sel[i + 1], keys)
    {
      if LimitOf(q).Some? {
        var off := OffsetOf(PageOf(q), LimitOf(q)).value;
        assert sel[i] == ordered[off + i] && sel[i + 1] == ordered[off + i + 1];
      }
    }
  }

  /** Without a page size every matching row is listed. */
  lemma NoLimitListsAll(rows: seq<Domain>, q: Query, from: Date, to: Date)
    requires q.limit.None?
    ensures multiset(Selected(rows, q, from, to)) == multiset(Filter(rows, q, from, to))
  {
  }
}

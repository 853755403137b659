/** The Nawala merge shared by `refreshNawalaInProcess` and `applyNawalaResultsFromCron`:
    the name-to-verdict map with its "www." alias, the lookup, and the write that only
    happens where the verdict differs. */
module NawalaMerge {
  import opened Wrappers
  import opened Text
  import opened DomainModel
  import opened DomainOrder

  /** A result as the merge records it: the lower-cased, trimmed domain and the verdict. */
  datatype Keyed = Keyed(key: string, blocked: bool)

  function KeyOf(r: CheckResult): Keyed {
    Keyed(NameKey(r.domain), r.blocked)
  }

  function KeyAll(rs: seq<CheckResult>): (r: seq<Keyed>)
    ensures |r| == |rs|
    ensures forall i :: 0 <= i < |rs| ==> r[i] == KeyOf(rs[i])
  {
    seq(|rs|, i requires 0 <= i < |rs| => KeyOf(rs[i]))
  }

  /** The map keys one result sets: its own key, and the key without "www." when that
      differs. */
  predicate Sets(r: Keyed, k: string) {
    r.key == k || StripWww(r.key) == k
  }

  /** Record one result. */
  function AddResult(m: map<string, bool>, r: Keyed): (m': map<string, bool>)
    ensures forall k :: k in m' <==> k in m || Sets(r, k)
    ensures forall k :: k in m' ==> m'[k] == if Sets(r, k) then r.blocked else m[k]
  {
    var m1 := m[r.key := r.blocked];
    var withoutWww := StripWww(r.key);
    if withoutWww != r.key then m1[withoutWww := r.blocked] else m1
  }

  /** The results recorded in order, later ones overwriting earlier ones. */
  function Fold(m: map<string, bool>, rs: seq<Keyed>): map<string, bool>
    decreases |rs|
  {
    if |rs| == 0 then m else Fold(AddResult(m, rs[0]), rs[1..])
  }

  /** `resultsMap` after every result of `rs` was recorded. */
  function ResultsMap(rs: seq<CheckResult>): map<string, bool> {
    Fold(map[], KeyAll(rs))
  }

  /** Reference reading of the map: the verdict of the last result that sets `k`, or
      what `m` held for it. */
  function Verdict(m: map<string, bool>, rs: seq<Keyed>, k: string): Option<bool>
    decreases |rs|
  {
    if |rs| == 0 then (if k in m then Some(m[k]) else None)
    else if Sets(rs[|rs| - 1], k) then Some(rs[|rs| - 1].blocked)
    else Verdict(m, rs[..|rs| - 1], k)
  }

  /** Recording results batch by batch is recording their concatenation. */
  lemma {:induction false} FoldAppend(m: map<string, bool>, a: seq<Keyed>, b: seq<Keyed>)
    ensures Fold(m, a + b) == Fold(Fold(m, a), b)
    decreases |a|
  {
    if |a| > 0 {
      assert (a + b)[1..] == a[1..] + b;
      FoldAppend(AddResult(m, a[0]), a[1..], b);
    } else {
      assert a + b == b;
    }
  }

  /** The map holds, for every key, the verdict of the last result that sets it. */
  lemma {:induction false} FoldIsVerdict(m: map<string, bool>, rs: seq<Keyed>, k: string)
    ensures var f := Fold(m, rs);
      (k in f <==> Verdict(m, rs, k).Some?) && (k in f ==> f[k] == Verdict(m, rs, k).value)
    decreases |rs|
  {
    if |rs| > 0 {
      var init := rs[..|rs| - 1];
      var last := rs[|rs| - 1];
      assert rs == init + [last];
      FoldAppend(m, init, [last]);
      FoldIsVerdict(m, init, k);
      assert Fold(Fold(m, init), [last]) == AddResult(Fold(m, init), last);
    }
  }

  /** `resultsMap.get(key) ?? resultsMap.get(keyNoWww)` for a row's key. */
  function LookupKey(m: map<string, bool>, key: string): (r: Option<bool>)
    ensures key in m ==> r == Some(m[key])
    ensures key !in m && StripWww(key) in m ==> r == Some(m[StripWww(key)])
    ensures key !in m && StripWww(key) !in m ==> r.None?
  {
    if key in m then Some(m[key]) else if StripWww(key) in m then Some(m[StripWww(key)]) else None
  }

  function Lookup(m: map<string, bool>, name: string): Option<bool> {
    LookupKey(m, NameKey(name))
  }

  /** A result is found both under its own key and under the key without "www.",
      and a row keyed "www.x" finds a result recorded for "x" when nothing is recorded
      for "www.x" itself. */
  lemma AliasBothWays(m: map<string, bool>, r: Keyed, key: string)
    ensures key == r.key ==> LookupKey(AddResult(m, r), key) == Some(r.blocked)
    ensures key == StripWww(r.key) ==> LookupKey(AddResult(m, r), key) == Some(r.blocked)
    ensures StripWww(key) == r.key && key !in m && !Sets(r, key) ==>
      LookupKey(AddResult(m, r), key) == Some(r.blocked)
  {
  }

  /** The write for one used row: `nawala` takes the found verdict when it differs. */
  function MergeRow(d: Domain, m: map<string, bool>): (r: Domain)
    ensures r == d || r == d.(nawala := !d.nawala)
    ensures var v := Lookup(m, d.name); r.nawala == if v.Some? then v.value else d.nawala
  {
    var blocked := Lookup(m, d.name);
    if blocked.Some? && d.nawala != blocked.value then d.(nawala := blocked.value) else d
  }

  /** Every used row merged; unused rows are not read. */
  function MergeAll(rows: seq<Domain>, m: map<string, bool>): (r: seq<Domain>)
    ensures |r| == |rows|
    ensures forall i :: 0 <= i < |rows| ==> r[i] == if rows[i].isUsed then MergeRow(rows[i], m) else rows[i]
  {
    seq(|rows|, i requires 0 <= i < |rows| => if rows[i].isUsed then MergeRow(rows[i], m) else rows[i])
  }

  /** Whether the merge writes row `d`. */
  predicate Writes(d: Domain, m: map<string, bool>) {
    d.isUsed && MergeRow(d, m) != d
  }

  function CountWrites(rows: seq<Domain>, m: map<string, bool>): (r: nat)
    ensures r <= |rows|
  {
    if |rows| == 0 then 0
    else CountWrites(rows[..|rows| - 1], m) + if Writes(rows[|rows| - 1], m) then 1 else 0
  }

  function CountUsed(rows: seq<Domain>): (r: nat)
    ensures r <= |rows|
  {
    if |rows| == 0 then 0
    else CountUsed(rows[..|rows| - 1]) + if rows[|rows| - 1].isUsed then 1 else 0
  }

  /** Only writes by used rows are counted, so `updated <= checked`. */
  lemma {:induction false} WritesWithinUsed(rows: seq<Domain>, m: map<string, bool>)
    ensures CountWrites(rows, m) <= CountUsed(rows)
  {
    if |rows| > 0 {
      WritesWithinUsed(rows[..|rows| - 1], m);
    }
  }

  /** The merge changes nothing but `nawala`, and only on used rows whose verdict was
      found and differs; those rows are exactly the counted ones. */
  lemma MergeChangesOnlyNawala(rows: seq<Domain>, m: map<string, bool>)
    ensures var r := MergeAll(rows, m);
      forall i :: 0 <= i < |rows| ==>
        && r[i].(nawala := rows[i].nawala) == rows[i]
        && (r[i] != rows[i] <==> Writes(rows[i], m))
        && (Writes(rows[i], m) ==> r[i].nawala == Lookup(m, rows[i].name).value)
  {
  }

  /** Merging the same verdicts a second time writes nothing. */
  lemma {:induction false} MergeIdempotent(rows: seq<Domain>, m: map<string, bool>)
    ensures MergeAll(MergeAll(rows, m), m) == MergeAll(rows, m)
    ensures CountWrites(MergeAll(rows, m), m) == 0
  {
    var r := MergeAll(rows, m);
    assert forall i :: 0 <= i < |r| ==> !Writes(r[i], m);
    NoWritesCountZero(r, m);
  }

  lemma {:induction false} NoWritesCountZero(rows: seq<Domain>, m: map<string, bool>)
    requires forall i :: 0 <= i < |rows| ==> !Writes(rows[i], m)
    ensures CountWrites(rows, m) == 0
  {
    if |rows| > 0 {
      NoWritesCountZero(rows[..|rows| - 1], m);
    }
  }

  /** The used rows, in table order. */
  function UsedRows(rows: seq<Domain>): (r: seq<Domain>)
    ensures |r| == CountUsed(rows)
    ensures forall d :: d in r <==> d in rows && d.isUsed
  {
    if |rows| == 0 then []
    else UsedRows(rows[..|rows| - 1]) + if rows[|rows| - 1].isUsed then [rows[|rows| - 1]] else []
  }

  /** The names of the used rows ordered by name, as `find({ isUsed: true },
      { orderBy: { name: 'ASC' } })` returns them: one name per used row, ascending. */
  function UsedNames(rows: seq<Domain>): (r: seq<string>)
    ensures |r| == CountUsed(rows)
    ensures forall i :: 0 <= i < |r| - 1 ==> StrCompare(r[i], r[i + 1]) <= 0
    ensures forall n :: n in r <==> exists d :: d in rows && d.isUsed && d.name == n
  {
    var used := Sort(UsedRows(rows), [Key(Name, Asc)]);
    assert |used| == |multiset(used)| == |multiset(UsedRows(rows))| == |UsedRows(rows)|;
    var r := seq(|used|, i requires 0 <= i < |used| => used[i].name);
    assert forall i :: 0 <= i < |r| - 1 ==> Before(used[i], used[i + 1], [Key(Name, Asc)]);
    UsedNamesMembers(rows, used, r);
    r
  }

  /** A name is among the names of the sorted used rows exactly when some used row has it. */
  lemma UsedNamesMembers(rows: seq<Domain>, used: seq<Domain>, r: seq<string>)
    requires multiset(used) == multiset(UsedRows(rows))
    requires |r| == |used| && forall i :: 0 <= i < |r| ==> r[i] == used[i].name
    ensures forall n :: n in r <==> exists d :: d in rows && d.isUsed && d.name == n
  {
    forall n
      ensures n in r <==> exists d :: d in rows && d.isUsed && d.name == n
    {
      if n in r {
        var i :| 0 <= i < |r| && r[i] == n;
        assert used[i] in multiset(UsedRows(rows));
      }
      if exists d :: d in rows && d.isUsed && d.name == n {
        var d :| d in rows && d.isUsed && d.name == n;
        assert d in multiset(used);
        var i :| 0 <= i < |used| && used[i] == d;
        assert r[i] == n;
      }
    }
  }
}

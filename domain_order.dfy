/** `ORDER BY` over domain rows: the sort keys the services ask the database for, and an
    insertion sort that realises them. Strings compare by code point (the "C" collation);
    rows that tie on every key are ordered by id, which the database leaves unspecified. */
module DomainOrder {
  import opened Text
  import opened DomainModel

  datatype Dir = Asc | Desc
  datatype Column = Name | ExpiryDate | CreatedAt | IsExpired | IsUsed
  datatype Key = Key(column: Column, dir: Dir)

  /** Three-way comparison of strings by code point. */
  function StrCompare(a: string, b: string): (r: int)
    ensures -1 <= r <= 1
    ensures r == 0 <==> a == b
  {
    if |a| == 0 && |b| == 0 then 0
    else if |a| == 0 then -1
    else if |b| == 0 then 1
    else if a[0] < b[0] then -1
    else if a[0] > b[0] then 1
    else
      var r := StrCompare(a[1..], b[1..]);
      assert r == 0 ==> a == [a[0]] + a[1..] == [b[0]] + b[1..] == b;
      r
  }

  lemma {:induction false} StrCompareAntisymmetric(a: string, b: string)
    ensures StrCompare(a, b) == -StrCompare(b, a)
  {
    if |a| > 0 && |b| > 0 && a[0] == b[0] {
      StrCompareAntisymmetric(a[1..], b[1..]);
    }
  }

  function IntCompare(a: int, b: int): int {
    if a < b then -1 else if a > b then 1 else 0
  }

  function BoolCompare(a: bool, b: bool): int {
    IntCompare(if a then 1 else 0, if b then 1 else 0)
  }

  function DateCompare(a: Date, b: Date): int {
    if a.year != b.year then IntCompare(a.year, b.year)
    else if a.month != b.month then IntCompare(a.month, b.month)
    else IntCompare(a.day, b.day)
  }

  function ColumnCompare(a: Domain, b: Domain, c: Column): int {
    match c
    case Name => StrCompare(a.name, b.name)
    case ExpiryDate => DateCompare(a.expiryDate, b.expiryDate)
    case CreatedAt => IntCompare(a.createdAt, b.createdAt)
    case IsExpired => BoolCompare(a.isExpired, b.isExpired)
    case IsUsed => BoolCompare(a.isUsed, b.isUsed)
  }

  /** Lexicographic over the keys, then by id. */
  function Compare(a: Domain, b: Domain, keys: seq<Key>): int
  {
    if |keys| == 0 then IntCompare(a.id, b.id)
    else
      var c := ColumnCompare(a, b, keys[0].column);
      var c' := if keys[0].dir == Asc then c else -c;
      if c' != 0 then c' else Compare(a, b, keys[1..])
  }

  lemma {:induction false} CompareAntisymmetric(a: Domain, b: Domain, keys: seq<Key>)
    ensures Compare(a, b, keys) == -Compare(b, a, keys)
  {
    if |keys| > 0 {
      if keys[0].column == Name {
        StrCompareAntisymmetric(a.name, b.name);
      }
      CompareAntisymmetric(a, b, keys[1..]);
    }
  }

  predicate Before(a: Domain, b: Domain, keys: seq<Key>) {
    Compare(a, b, keys) <= 0
  }

  /** Either row may come first, or both: the order is total. */
  lemma BeforeTotal(a: Domain, b: Domain, keys: seq<Key>)
    ensures Before(a, b, keys) || Before(b, a, keys)
  {
    CompareAntisymmetric(a, b, keys);
  }

  predicate SortedBy(s: seq<Domain>, keys: seq<Key>) {
    forall i :: 0 <= i < |s| - 1 ==> Before(s[i], s[i + 1], keys)
  }

  function Insert(x: Domain, s: seq<Domain>, keys: seq<Key>): (r: seq<Domain>)
    requires SortedBy(s, keys)
    ensures multiset(r) == multiset(s) + multiset{x}
    ensures |r| == |s| + 1
    ensures r[0] == x || (|s| > 0 && r[0] == s[0])
    ensures SortedBy(r, keys)
  {
    if |s| == 0 then [x]
    else if Before(x, s[0], keys) then [x] + s
    else
      BeforeTotal(x, s[0], keys);
      var rest := Insert(x, s[1..], keys);
      assert s == [s[0]] + s[1..];
      [s[0]] + rest
  }

  /** The rows in key order: a permutation of the input, sorted. */
  function Sort(s: seq<Domain>, keys: seq<Key>): (r: seq<Domain>)
    ensures multiset(r) == multiset(s)
    ensures SortedBy(r, keys)
  {
    if |s| == 0 then []
    else
      assert s == [s[0]] + s[1..];
      Insert(s[0], Sort(s[1..], keys), keys)
  }
}

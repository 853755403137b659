/** `DomainService.bulkMarkUsedFromFile`: the names read from an uploaded text file, and
    the rows they mark as used. */
module BulkMarkUsed {
  import opened Wrappers
  import opened Text
  import opened DomainModel

  /** A line as the file is read: trimmed, then lower-cased. */
  function LineKey(l: string): string {
    Lower(Trim(l))
  }

  /** Reading a line and keying a row name agree. */
  lemma LineKeyIsNameKey(l: string)
    ensures LineKey(l) == NameKey(l)
  {
    TrimLowerCommute(l);
  }

  /** The keyed lines, blank ones dropped, in file order. */
  function Cleaned(lines: seq<string>): (r: seq<string>)
    ensures forall n :: n in r ==> n != ""
    ensures forall n :: n in r <==> n != "" && exists i :: 0 <= i < |lines| && LineKey(lines[i]) == n
  {
    if |lines| == 0 then []
    else
      var rest := Cleaned(lines[..|lines| - 1]);
      var k := LineKey(lines[|lines| - 1]);
      assert forall i :: 0 <= i < |lines| - 1 ==> lines[..|lines| - 1][i] == lines[i];
      if k == "" then rest else rest + [k]
  }

  predicate NoDuplicates(s: seq<string>) {
    forall i, j :: 0 <= i < j < |s| ==> s[i] != s[j]
  }

  /** `[...new Set(s)]`: the first occurrence of each value, in order. */
  function Dedupe(s: seq<string>): (r: seq<string>)
    ensures NoDuplicates(r)
    ensures forall x :: x in r <==> x in s
    ensures |r| <= |s|
  {
    if |s| == 0 then []
    else
      var d := Dedupe(s[..|s| - 1]);
      assert s == s[..|s| - 1] + [s[|s| - 1]];
      if s[|s| - 1] in d then d else d + [s[|s| - 1]]
  }

  /** The distinct, non-blank, keyed lines, in the order they first appear; a name is
      among them exactly when some line keys to it. */
  function NamesOf(lines: seq<string>): (r: seq<string>)
    ensures NoDuplicates(r)
    ensures forall n :: n in r <==> n != "" && exists i :: 0 <= i < |lines| && LineKey(lines[i]) == n
  {
    Dedupe(Cleaned(lines))
  }

  /** The names of an uploaded file, split at CRLF, CR or LF. */
  function FileNames(text: string): seq<string> {
    NamesOf(SplitLines(text))
  }

  /** The key of every row, in table order. */
  function RowKeys(rows: seq<Domain>): (r: seq<string>)
    ensures |r| == |rows|
    ensures forall i :: 0 <= i < |rows| ==> r[i] == NameKey(rows[i].name)
  {
    seq(|rows|, i requires 0 <= i < |rows| => NameKey(rows[i].name))
  }

  /** The first row with key `k` (`nameToDomain` keeps the first row per key). */
  function FirstIndex(keys: seq<string>, k: string): (r: Option<nat>)
    ensures r.Some? ==> r.value < |keys| && keys[r.value] == k && forall j :: 0 <= j < r.value ==> keys[j] != k
    ensures r.None? <==> k !in keys
  {
    if |keys| == 0 then None
    else if keys[0] == k then Some(0)
    else match FirstIndex(keys[1..], k)
      case None => None
      case Some(j) => Some(j + 1)
  }

  /** Row `i` is the one its key maps to. */
  predicate IsFirst(keys: seq<string>, i: nat)
    requires i < |keys|
  {
    FirstIndex(keys, keys[i]) == Some(i)
  }

  /** The marking: each named key's first row becomes used. */
  function MarkUsed(rows: seq<Domain>, names: seq<string>): (r: seq<Domain>)
    ensures |r| == |rows|
  {
    var keys := RowKeys(rows);
    seq(|rows|, i requires 0 <= i < |rows| =>
      if IsFirst(keys, i) && keys[i] in names && !rows[i].isUsed then rows[i].(isUsed := true) else rows[i])
  }

  /** `matched`: the names some row carries. */
  function Matched(names: seq<string>, keys: seq<string>): (r: nat)
    ensures r <= |names|
  {
    if |names| == 0 then 0
    else Matched(names[..|names| - 1], keys) + if names[|names| - 1] in keys then 1 else 0
  }

  /** Whether the name finds a row that is not yet used. */
  predicate Marks(rows: seq<Domain>, keys: seq<string>, n: string)
    requires |keys| == |rows|
  {
    var i := FirstIndex(keys, n);
    i.Some? && !rows[i.value].isUsed
  }

  /** `updated`: the names whose row was switched to used. */
  function Updated(rows: seq<Domain>, keys: seq<string>, names: seq<string>): (r: nat)
    requires |keys| == |rows|
  {
    if |names| == 0 then 0
    else Updated(rows, keys, names[..|names| - 1]) + if Marks(rows, keys, names[|names| - 1]) then 1 else 0
  }

  /** `updated <= matched <= names`. */
  lemma {:induction false} UpdatedWithinMatched(rows: seq<Domain>, keys: seq<string>, names: seq<string>)
    requires |keys| == |rows|
    ensures Updated(rows, keys, names) <= Matched(names, keys) <= |names|
  {
    if |names| > 0 {
      UpdatedWithinMatched(rows, keys, names[..|names| - 1]);
    }
  }

  /** Marking only ever switches `isUsed` from false to true, only on the first row of
      a named key, and leaves every such row used. */
  lemma MarkUsedMonotone(rows: seq<Domain>, names: seq<string>)
    ensures var r := MarkUsed(rows, names); var keys := RowKeys(rows);
      forall i :: 0 <= i < |rows| ==>
        && r[i].(isUsed := rows[i].isUsed) == rows[i]
        && (rows[i].isUsed ==> r[i].isUsed)
        && (r[i] != rows[i] ==> IsFirst(keys, i) && keys[i] in names && !rows[i].isUsed)
        && (IsFirst(keys, i) && keys[i] in names ==> r[i].isUsed)
  {
  }

  /** Without names nothing is marked. */
  lemma NoNamesNoMarks(rows: seq<Domain>)
    ensures MarkUsed(rows, []) == rows
  {
    var r := MarkUsed(rows, []);
    assert forall i :: 0 <= i < |rows| ==> r[i] == rows[i];
  }

  /** Uploading the same file again marks nothing more and counts no update. */
  lemma MarkUsedIdempotent(rows: seq<Domain>, names: seq<string>)
    ensures var r := MarkUsed(rows, names);
      && RowKeys(r) == RowKeys(rows)
      && MarkUsed(r, names) == r
      && Updated(r, RowKeys(r), names) == 0
  {
    var r := MarkUsed(rows, names);
    var keys := RowKeys(rows);
    MarkUsedMonotone(rows, names);
    assert forall i :: 0 <= i < |rows| ==> r[i].name == rows[i].name;
    assert RowKeys(r) == keys;
    var r2 := MarkUsed(r, names);
    assert forall i :: 0 <= i < |rows| ==> r2[i] == r[i];
    forall n | n in names
      ensures !Marks(r, keys, n)
    {
      var f := FirstIndex(keys, n);
      if f.Some? {
        assert IsFirst(keys, f.value);
      }
    }
    NothingMarksNoUpdate(r, keys, names);
  }

  lemma {:induction false} NothingMarksNoUpdate(rows: seq<Domain>, keys: seq<string>, names: seq<string>)
    requires |keys| == |rows|
    requires forall n :: n in names ==> !Marks(rows, keys, n)
    ensures Updated(rows, keys, names) == 0
  {
    if |names| > 0 {
      NothingMarksNoUpdate(rows, keys, names[..|names| - 1]);
    }
  }
}

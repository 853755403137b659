/** The record stores behind the CRUD services: a table is its rows in ascending
    primary-key order, every id below the next auto-increment value, so `findOne({ id })`
    is the one row carrying that id. */
module Table {
  import opened Wrappers

  datatype Row<T> = Row(id: nat, data: T)

  /** Ids ascend and stay below the next id. */
  predicate Keyed<T>(rows: seq<Row<T>>, nextId: nat) {
    && (forall i, j :: 0 <= i < j < |rows| ==> rows[i].id < rows[j].id)
    && (forall i :: 0 <= i < |rows| ==> rows[i].id < nextId)
  }

  /** The position of the row with id `id`, if any. */
  function IndexOfId<T>(rows: seq<Row<T>>, id: int): (r: Option<nat>)
    ensures r.Some? ==> r.value < |rows| && rows[r.value].id == id
    ensures r.None? <==> forall i :: 0 <= i < |rows| ==> rows[i].id != id
  {
    if |rows| == 0 then None
    else if rows[0].id == id then Some(0)
    else match IndexOfId(rows[1..], id)
      case None => None
      case Some(k) => Some(k + 1)
  }

  /** The table without its `k`-th row. */
  function Without<T>(rows: seq<Row<T>>, k: nat): (r: seq<Row<T>>)
    requires k < |rows|
    ensures |r| == |rows| - 1
    ensures forall j :: 0 <= j < |r| ==> r[j] == if j < k then rows[j] else rows[j + 1]
  {
    rows[..k] + rows[k + 1..]
  }

  /** The table with the data of its `k`-th row replaced. */
  function Replaced<T>(rows: seq<Row<T>>, k: nat, data: T): (r: seq<Row<T>>)
    requires k < |rows|
    ensures |r| == |rows| && r[k] == Row(rows[k].id, data)
    ensures forall j :: 0 <= j < |r| && j != k ==> r[j] == rows[j]
  {
    rows[k := Row(rows[k].id, data)]
  }

  /** In a keyed table every row is found under its own id. */
  lemma FindsOwnRow<T>(rows: seq<Row<T>>, nextId: nat, k: nat)
    requires Keyed(rows, nextId) && k < |rows|
    ensures IndexOfId(rows, rows[k].id) == Some(k)
  {
  }

  /** An insert takes the next id: the table stays keyed and the new row is found. */
  lemma Appended<T>(rows: seq<Row<T>>, nextId: nat, data: T)
    requires Keyed(rows, nextId)
    ensures Keyed(rows + [Row(nextId, data)], nextId + 1)
    ensures IndexOfId(rows + [Row(nextId, data)], nextId) == Some(|rows|)
  {
    FindsOwnRow(rows + [Row(nextId, data)], nextId + 1, |rows|);
  }

  /** A delete keeps the table keyed; the removed id is gone and every other id stays. */
  lemma Removed<T>(rows: seq<Row<T>>, nextId: nat, k: nat)
    requires Keyed(rows, nextId) && k < |rows|
    ensures Keyed(Without(rows, k), nextId)
    ensures IndexOfId(Without(rows, k), rows[k].id).None?
    ensures forall j :: 0 <= j < |rows| && j != k ==> IndexOfId(Without(rows, k), rows[j].id).Some?
  {
    var w := Without(rows, k);
    forall j | 0 <= j < |w|
      ensures w[j].id != rows[k].id
    {
      if j < k { assert rows[j].id < rows[k].id; } else { assert rows[k].id < rows[j + 1].id; }
    }
    forall j | 0 <= j < |rows| && j != k
      ensures IndexOfId(w, rows[j].id).Some?
    {
      assert w[if j < k then j else j - 1] == rows[j];
    }
  }

  /** Replacing a row's data keeps the table keyed and the row under the same id. */
  lemma ReplacedKeyed<T>(rows: seq<Row<T>>, nextId: nat, k: nat, data: T)
    requires Keyed(rows, nextId) && k < |rows|
    ensures Keyed(Replaced(rows, k, data), nextId)
    ensures IndexOfId(Replaced(rows, k, data), rows[k].id) == Some(k)
  {
    FindsOwnRow(Replaced(rows, k, data), nextId, k);
  }
}

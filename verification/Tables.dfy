/** A table with a primary key, a second unique column and an encoded value, as the SQLite stores use it, and
    the map it holds. Each transaction of a store is one atomic step on the table. */
module Tables {
  import opened Core

  /** The value column holds an encoding that decodes to the same value. */
  datatype Row<V> = Row(key: string, other: string, revision: int, value: V)

  function Table<V>(rows: seq<Row<V>>): map<string, V> {
    if rows == [] then map[] else Table(rows[..|rows| - 1])[rows[|rows| - 1].key := rows[|rows| - 1].value]
  }

  ghost predicate Unique<V>(rows: seq<Row<V>>) {
    forall i, j :: 0 <= i < j < |rows| ==> rows[i].key != rows[j].key && rows[i].other != rows[j].other
  }

  ghost predicate HasRow<V>(rows: seq<Row<V>>, key: string) {
    exists i :: 0 <= i < |rows| && rows[i].key == key
  }

  lemma {:induction false} TableKeys<V>(rows: seq<Row<V>>, key: string)
    ensures key in Table(rows) <==> HasRow(rows, key)
    decreases |rows|
  {
    if rows != [] {
      var init := rows[..|rows| - 1];
      TableKeys(init, key);
      if HasRow(init, key) { var i :| 0 <= i < |init| && init[i].key == key; assert rows[i].key == key; }
      if HasRow(rows, key) {
        var i :| 0 <= i < |rows| && rows[i].key == key;
        if i < |init| { assert init[i].key == key; }
      }
    }
  }

  lemma {:induction false} TableRow<V>(rows: seq<Row<V>>, i: nat)
    requires Unique(rows) && i < |rows|
    ensures rows[i].key in Table(rows) && Table(rows)[rows[i].key] == rows[i].value
    decreases |rows|
  {
    var init := rows[..|rows| - 1];
    if i < |init| {
      assert init[i] == rows[i] && rows[|rows| - 1].key != rows[i].key;
      TableRow(init, i);
    }
  }

  /** The map that the table holds. */
  lemma {:induction false} TableHolds<V>(rows: seq<Row<V>>)
    requires Unique(rows)
    ensures forall i :: 0 <= i < |rows| ==> rows[i].key in Table(rows) && Table(rows)[rows[i].key] == rows[i].value
    ensures forall key :: key in Table(rows) <==> HasRow(rows, key)
  {
    forall i | 0 <= i < |rows| ensures rows[i].key in Table(rows) && Table(rows)[rows[i].key] == rows[i].value { TableRow(rows, i); }
    forall key ensures key in Table(rows) <==> HasRow(rows, key) { TableKeys(rows, key); }
  }

  /** Updating the row with this key updates the map at this key. */
  lemma {:induction false} TableUpdate<V>(rows: seq<Row<V>>, k: nat, row: Row<V>)
    requires Unique(rows) && k < |rows| && row.key == rows[k].key && row.other == rows[k].other
    ensures Unique(rows[k := row]) && Table(rows[k := row]) == Table(rows)[row.key := row.value]
  {
    var after := rows[k := row];
    forall key ensures key in Table(after) <==> key in Table(rows) || key == row.key {
      TableKeys(rows, key);
      TableKeys(after, key);
      SameKeys(rows, k, row, key);
    }
    forall key | key in Table(after) ensures Table(after)[key] == if key == row.key then row.value else Table(rows)[key] {
      TableKeys(after, key);
      var i :| 0 <= i < |after| && after[i].key == key;
      TableRow(after, i);
      if i != k { TableRow(rows, i); }
    }
  }

  lemma {:induction false} SameKeys<V>(rows: seq<Row<V>>, k: nat, row: Row<V>, key: string)
    requires k < |rows| && row.key == rows[k].key
    ensures HasRow(rows[k := row], key) <==> HasRow(rows, key)
    ensures HasRow(rows, row.key)
  {
    if HasRow(rows, key) { var i :| 0 <= i < |rows| && rows[i].key == key; assert rows[k := row][i].key == key; }
    if HasRow(rows[k := row], key) { var i :| 0 <= i < |rows| && rows[k := row][i].key == key; assert rows[i].key == key; }
  }

  lemma {:induction false} TableInsert<V>(rows: seq<Row<V>>, row: Row<V>)
    requires Unique(rows) && forall i :: 0 <= i < |rows| ==> rows[i].key != row.key && rows[i].other != row.other
    ensures Unique(rows + [row]) && Table(rows + [row]) == Table(rows)[row.key := row.value]
  {
  }

  /** `SELECT ... WHERE key = ?`: the position of the row, or -1. */
  method FindRow<V>(rows: seq<Row<V>>, key: string) returns (k: int)
    requires Unique(rows)
    ensures -1 <= k < |rows|
    ensures if k < 0 then key !in Table(rows) else rows[k].key == key && key in Table(rows) && Table(rows)[key] == rows[k].value
  {
    TableHolds(rows);
    k := |rows| - 1;
    while k >= 0 && rows[k].key != key
      invariant -1 <= k < |rows| && forall i :: k < i < |rows| ==> rows[i].key != key
    {
      k := k - 1;
    }
  }

  /** `SELECT ... WHERE other = ?`. */
  method FindOther<V>(rows: seq<Row<V>>, other: string) returns (k: int)
    requires Unique(rows)
    ensures -1 <= k < |rows|
    ensures k < 0 ==> forall i :: 0 <= i < |rows| ==> rows[i].other != other
    ensures k >= 0 ==> rows[k].other == other && rows[k].key in Table(rows) && Table(rows)[rows[k].key] == rows[k].value
  {
    TableHolds(rows);
    k := |rows| - 1;
    while k >= 0 && rows[k].other != other
      invariant -1 <= k < |rows| && forall i :: k < i < |rows| ==> rows[i].other != other
    {
      k := k - 1;
    }
  }
}

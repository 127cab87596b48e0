/** Reading a shard in id order past a cursor, as the producer and the backfill both do. */
module Keyset {
  import opened Common
  import opened Contract

  predicate SafeTableName(t: string) {
    t != "" && forall c :: c in t ==> c == '_' || 'a' <= c <= 'z' || 'A' <= c <= 'Z' || '0' <= c <= '9'
  }

  ghost predicate Ascending(rows: seq<Row>) {
    forall i, j :: 0 <= i < j < |rows| ==> rows[i].id < rows[j].id
  }

  /** The first place from i on whose row the cursor has not passed. */
  function PassedFrom(rows: seq<Row>, cursor: int, i: nat): (n: nat)
    requires i <= |rows|
    ensures i <= n <= |rows|
    ensures forall k :: i <= k < n ==> rows[k].id <= cursor
    ensures n < |rows| ==> rows[n].id > cursor
    decreases |rows| - i
  {
    if i == |rows| || rows[i].id > cursor then i else PassedFrom(rows, cursor, i + 1)
  }

  /** How many leading rows the cursor has passed. */
  function Passed(rows: seq<Row>, cursor: int): (n: nat)
    ensures n <= |rows|
    ensures forall k :: 0 <= k < n ==> rows[k].id <= cursor
    ensures n < |rows| ==> rows[n].id > cursor
  {
    PassedFrom(rows, cursor, 0)
  }

  /** WHERE id > cursor ORDER BY id, on rows kept in id order. */
  function After(rows: seq<Row>, cursor: int): seq<Row> {
    rows[Passed(rows, cursor)..]
  }

  function CursorOf(cursors: map<string, int>, table: string): int {
    if table in cursors then cursors[table] else 0
  }

  lemma AfterAt(rows: seq<Row>, cursor: int, n: nat)
    requires Ascending(rows) && n <= |rows|
    requires n > 0 ==> rows[n - 1].id <= cursor
    requires n < |rows| ==> rows[n].id > cursor
    ensures After(rows, cursor) == rows[n..]
  {
  }

  /** Moving the cursor to the n-th remaining row leaves exactly the rows behind it. */
  lemma Remaining(shard: seq<Row>, cursor: int, n: nat)
    requires Ascending(shard) && n < |After(shard, cursor)|
    ensures After(shard, cursor)[n].id > cursor
    ensures After(shard, After(shard, cursor)[n].id) == After(shard, cursor)[n + 1..]
  {
    var p := Passed(shard, cursor);
    AfterAt(shard, shard[p + n].id, p + n + 1);
  }

  /** Place n is where the rows after the cursor begin. */
  predicate IsPlace(rows: seq<Row>, cursor: int, n: nat) {
    && n <= |rows| && (n > 0 ==> rows[n - 1].id <= cursor) && (n < |rows| ==> rows[n].id > cursor)
  }

  lemma PlaceOf(rows: seq<Row>, cursor: int) returns (n: nat)
    ensures IsPlace(rows, cursor, n) && n == Passed(rows, cursor)
  {
    n := Passed(rows, cursor);
  }

  lemma NextPlace(rows: seq<Row>, n: nat, m: nat)
    requires Ascending(rows) && n < m <= |rows|
    ensures IsPlace(rows, rows[m - 1].id, m)
  {
  }
}

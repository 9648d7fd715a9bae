/**
 * The `scan_history` table and its data-access object, as an in-memory table.
 *
 * The primary key is auto-generated: an id of 0 stands for "no id yet" and the
 * store assigns one more than the largest id it has ever used (the table's
 * sequence counter, which deleting rows does not reset). An insert whose id is
 * already present replaces that row.
 */
module Database {

  datatype ScanHistoryItem = ScanHistoryItem(
    id: int,
    barcode: string,
    productName: string,
    scanTime: int,
    scanResult: string,
    conflictingAllergens: string)

  /** The table's rows and its sequence counter, the largest id ever used. */
  datatype Table = Table(rows: seq<ScanHistoryItem>, sequence: int)

  function Ids(rows: seq<ScanHistoryItem>): set<int> {
    set r | r in rows :: r.id
  }

  predicate UniqueIds(rows: seq<ScanHistoryItem>) {
    forall i, j :: 0 <= i < j < |rows| ==> rows[i].id != rows[j].id
  }

  /** Ids are unique, never 0, and never above the sequence counter. */
  predicate WellFormed(t: Table) {
    && UniqueIds(t.rows)
    && 0 <= t.sequence
    && forall r :: r in t.rows ==> r.id != 0 && r.id <= t.sequence
  }

  /** The row an insert stores: an id of 0 is replaced by a fresh one. */
  function Stored(t: Table, item: ScanHistoryItem): (row: ScanHistoryItem)
    requires WellFormed(t)
    ensures row.id != 0
    ensures item.id == 0 ==> row.id !in Ids(t.rows) && row.id > t.sequence
    ensures row.(id := item.id) == item
    ensures item.id != 0 ==> row == item
  {
    if item.id == 0 then item.(id := t.sequence + 1) else item
  }

  function ReplaceById(rows: seq<ScanHistoryItem>, row: ScanHistoryItem): (r: seq<ScanHistoryItem>)
    ensures |r| == |rows|
    ensures forall k :: 0 <= k < |rows| ==> r[k] == if rows[k].id == row.id then row else rows[k]
  {
    seq(|rows|, k requires 0 <= k < |rows| => if rows[k].id == row.id then row else rows[k])
  }

  /** With unique ids, replacing the row at the one index holding `row.id`
      is replacing by id. */
  lemma ReplaceAtUniqueId(rows: seq<ScanHistoryItem>, i: nat, row: ScanHistoryItem)
    requires UniqueIds(rows)
    requires i < |rows| && rows[i].id == row.id
    ensures rows[i := row] == ReplaceById(rows, row)
  {
    forall k | 0 <= k < |rows|
      ensures rows[i := row][k] == ReplaceById(rows, row)[k]
    {
      assert k != i ==> rows[k].id != row.id;
    }
  }

  /** `insert` with the REPLACE conflict strategy. */
  function Inserted(t: Table, item: ScanHistoryItem): (u: Table)
    requires WellFormed(t)
    ensures WellFormed(u)
    ensures forall r :: r in u.rows <==> r == Stored(t, item) || (r in t.rows && r.id != Stored(t, item).id)
    ensures Stored(t, item).id in Ids(t.rows) ==> |u.rows| == |t.rows|
    ensures Stored(t, item).id !in Ids(t.rows) ==> u.rows == t.rows + [Stored(t, item)]
    ensures t.sequence <= u.sequence
  {
    var row := Stored(t, item);
    if row.id in Ids(t.rows) then
      var rows := ReplaceById(t.rows, row);
      assert forall r :: r in rows <==> r == row || (r in t.rows && r.id != row.id) by {
        forall r ensures r in rows <==> r == row || (r in t.rows && r.id != row.id) {
          if r == row {
            var k :| 0 <= k < |t.rows| && t.rows[k].id == row.id;
            assert rows[k] == row;
          }
        }
      }
      Table(rows, t.sequence)
    else
      Table(t.rows + [row], if row.id > t.sequence then row.id else t.sequence)
  }

  /** Rows ordered by `scanTime`, newest first. */
  predicate NewestFirst(rows: seq<ScanHistoryItem>) {
    forall i, j :: 0 <= i < j < |rows| ==> rows[i].scanTime >= rows[j].scanTime
  }

  /** A row no older than the head of a newest-first list can go in front of it. */
  lemma PrependNewestFirst(row: ScanHistoryItem, sorted: seq<ScanHistoryItem>)
    requires NewestFirst(sorted)
    requires sorted != [] ==> row.scanTime >= sorted[0].scanTime
    ensures NewestFirst([row] + sorted)
  {
    var r := [row] + sorted;
    forall i, j | 0 <= i < j < |r| ensures r[i].scanTime >= r[j].scanTime {
      if i == 0 && j > 1 {
        assert r[j] == sorted[j - 1] && sorted[0].scanTime >= sorted[j - 1].scanTime;
      }
    }
  }

  function InsertNewestFirst(row: ScanHistoryItem, sorted: seq<ScanHistoryItem>): (r: seq<ScanHistoryItem>)
    requires NewestFirst(sorted)
    ensures NewestFirst(r)
    ensures multiset(r) == multiset(sorted) + multiset{row}
    ensures r[0] == row || (sorted != [] && r[0] == sorted[0])
  {
    if sorted == [] || row.scanTime >= sorted[0].scanTime then
      PrependNewestFirst(row, sorted);
      [row] + sorted
    else
      var rest := InsertNewestFirst(row, sorted[1..]);
      PrependNewestFirst(sorted[0], rest);
      assert sorted == [sorted[0]] + sorted[1..];
      [sorted[0]] + rest
  }

  /** `ORDER BY scanTime DESC`: the rows, sorted newest first. */
  function SortNewestFirst(rows: seq<ScanHistoryItem>): (r: seq<ScanHistoryItem>)
    ensures NewestFirst(r)
    ensures multiset(r) == multiset(rows)
  {
    if rows == [] then []
    else
      assert rows == [rows[0]] + rows[1..];
      InsertNewestFirst(rows[0], SortNewestFirst(rows[1..]))
  }

  class ScanHistoryDao {
    var rows: seq<ScanHistoryItem>
    var sequence: int

    ghost predicate Valid()
      reads this
    {
      WellFormed(Table(rows, sequence))
    }

    constructor ()
      ensures Valid() && rows == [] && sequence == 0
    {
      rows, sequence := [], 0;
    }

    method Insert(item: ScanHistoryItem)
      requires Valid()
      modifies this
      ensures Valid()
      ensures Table(rows, sequence) == Inserted(old(Table(rows, sequence)), item)
    {
      if item.id == 0 {
        sequence := sequence + 1;
        rows := rows + [item.(id := sequence)];
        return;
      }
      var i := 0;
      while i < |rows| && rows[i].id != item.id
        invariant 0 <= i <= |rows|
        invariant forall k :: 0 <= k < i ==> rows[k].id != item.id
      {
        i := i + 1;
      }
      if i < |rows| {
        assert item.id in Ids(rows);
        ReplaceAtUniqueId(rows, i, item);
        rows := rows[i := item];
      } else {
        assert item.id !in Ids(rows);
        rows := rows + [item];
        if item.id > sequence {
          sequence := item.id;
        }
      }
    }

    /** `getAllHistory`: a snapshot of the rows, newest first; reading changes nothing. */
    function GetAllHistory(): (history: seq<ScanHistoryItem>)
      reads this
      ensures NewestFirst(history)
      ensures multiset(history) == multiset(rows)
    {
      SortNewestFirst(rows)
    }

    /** `clearAll`: every row is deleted; the sequence counter is kept. */
    method ClearAll()
      requires Valid()
      modifies this
      ensures Valid()
      ensures rows == [] && sequence == old(sequence)
    {
      rows := [];
    }
  }

  /** With unique ids, no row occurs twice. */
  lemma {:induction false} UniqueIdsOccurOnce(rows: seq<ScanHistoryItem>, x: ScanHistoryItem)
    requires UniqueIds(rows)
    ensures multiset(rows)[x] <= 1
  {
    if rows != [] {
      var rest := rows[1..];
      assert rows == [rows[0]] + rest;
      assert UniqueIds(rest) by {
        forall i, j | 0 <= i < j < |rest| ensures rest[i].id != rest[j].id {
          assert rest[i] == rows[i + 1] && rest[j] == rows[j + 1];
        }
      }
      UniqueIdsOccurOnce(rest, x);
    }
  }

  /** A row found at two indices occurs at least twice. */
  lemma OccursTwice(rows: seq<ScanHistoryItem>, i: nat, j: nat)
    requires i < j < |rows| && rows[i] == rows[j]
    ensures multiset(rows)[rows[i]] >= 2
  {
    assert rows == rows[..j] + [rows[j]] + rows[j + 1..];
    assert rows[i] in rows[..j];
  }

  /** Reordering rows keeps their ids unique. */
  lemma PermutationKeepsUniqueIds(rows: seq<ScanHistoryItem>, reordered: seq<ScanHistoryItem>)
    requires UniqueIds(rows)
    requires multiset(reordered) == multiset(rows)
    ensures UniqueIds(reordered)
  {
    forall i, j | 0 <= i < j < |reordered| ensures reordered[i].id != reordered[j].id {
      if reordered[i] == reordered[j] {
        OccursTwice(reordered, i, j);
        UniqueIdsOccurOnce(rows, reordered[i]);
      } else {
        assert reordered[i] in multiset(rows) && reordered[j] in multiset(rows);
        var k :| 0 <= k < |rows| && rows[k] == reordered[i];
        var l :| 0 <= l < |rows| && rows[l] == reordered[j];
        assert k != l;
      }
    }
  }

  /** The history of a well-formed table lists each row once: its ids are unique. */
  lemma HistoryListsEachRowOnce(t: Table)
    requires WellFormed(t)
    ensures UniqueIds(SortNewestFirst(t.rows))
  {
    PermutationKeepsUniqueIds(t.rows, SortNewestFirst(t.rows));
  }
}

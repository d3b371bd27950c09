/** The views a step function gets of a Gherkin data table (src/DataTable.ts).
    The table is an immutable value, so every view leaves the cells as they were. */
module DataTable {
  import opened Wrappers
  import opened Seqs

  datatype Table = Table(cells: seq<seq<string>>)

  /** A JavaScript object with string keys and string values. */
  type Record = map<string, string>

  const RowsHashError: string := "All rows must have exactly 2 columns"
  const ListError: string := "All rows must have exactly 1 column"

  /** `raw()`: a copy of the cells, which as a value is the cells themselves. */
  function Raw(t: Table): (r: seq<seq<string>>)
    ensures |r| == |t.cells|
    ensures forall i :: 0 <= i < |r| ==> r[i] == t.cells[i]
  {
    t.cells
  }

  /** `rows()`: every row but the header. */
  function Rows(t: Table): (r: seq<seq<string>>)
    ensures |t.cells| == 0 ==> r == []
    ensures |t.cells| > 0 ==> |r| == |t.cells| - 1
    ensures forall i :: 0 <= i < |r| ==> r[i] == t.cells[i + 1]
  {
    if |t.cells| == 0 then [] else Raw(t)[1..]
  }

  /** The key `keys[index]` names in an object literal: a column past the end
      of the header has the key "undefined". */
  function Key(header: seq<string>, j: nat): string {
    if j < |header| then header[j] else "undefined"
  }

  /** `row.reduce((acc, value, index) => ({...acc, [keys[index]]: value}), {})`:
      each column in turn overwrites the key its header names. */
  function RowRecord(header: seq<string>, row: seq<string>): Record {
    if |row| == 0 then map[]
    else RowRecord(header, row[..|row| - 1])[Key(header, |row| - 1) := row[|row| - 1]]
  }

  /** A record holds exactly the keys of its row's columns. */
  lemma {:induction false} RowRecordKeys(header: seq<string>, row: seq<string>, k: string)
    ensures k in RowRecord(header, row) <==> exists j :: 0 <= j < |row| && Key(header, j) == k
  {
    if |row| > 0 {
      var row' := row[..|row| - 1];
      RowRecordKeys(header, row', k);
      assert forall j :: 0 <= j < |row'| ==> row'[j] == row[j];
      if k == Key(header, |row| - 1) {
        assert k in RowRecord(header, row);
      }
    }
  }

  /** A key holds the value of the last column it names: with a repeated
      header the later column wins. */
  lemma {:induction false} RowRecordValue(header: seq<string>, row: seq<string>, j: nat)
    requires j < |row|
    requires forall j' :: j < j' < |row| ==> Key(header, j') != Key(header, j)
    ensures Key(header, j) in RowRecord(header, row)
    ensures RowRecord(header, row)[Key(header, j)] == row[j]
  {
    if j < |row| - 1 {
      RowRecordValue(header, row[..|row| - 1], j);
    }
  }

  /** `hashes()`: one record per row below the header. */
  function Hashes(t: Table): (r: seq<Record>)
    ensures |r| == |Rows(t)|
    ensures forall i :: 0 <= i < |r| ==> r[i] == RowRecord(t.cells[0], t.cells[i + 1])
  {
    if |t.cells| == 0 then []
    else seq(|t.cells| - 1, i requires 0 <= i < |t.cells| - 1 => RowRecord(t.cells[0], t.cells[i + 1]))
  }

  /** With distinct header keys and rows as long as the header, record `i`
      maps `header[j]` to `cells[i + 1][j]` and has no other key. */
  lemma HashesLookup(t: Table, i: nat, j: nat)
    requires |t.cells| > 0 && i < |t.cells| - 1
    requires Distinct(t.cells[0])
    requires |t.cells[i + 1]| == |t.cells[0]|
    requires j < |t.cells[0]|
    ensures var rec := Hashes(t)[i];
      && t.cells[0][j] in rec && rec[t.cells[0][j]] == t.cells[i + 1][j]
      && forall k :: k in rec ==> k in t.cells[0]
  {
    var header, row := t.cells[0], t.cells[i + 1];
    RowRecordValue(header, row, j);
    forall k | k in Hashes(t)[i] ensures k in header {
      RowRecordKeys(header, row, k);
    }
  }

  /** The first-column to second-column map of two-column rows; a later row
      overwrites an earlier one with the same key. */
  function PairsRecord(rows: seq<seq<string>>): Record
    requires forall i :: 0 <= i < |rows| ==> |rows[i]| == 2
  {
    if |rows| == 0 then map[]
    else PairsRecord(rows[..|rows| - 1])[rows[|rows| - 1][0] := rows[|rows| - 1][1]]
  }

  lemma {:induction false} PairsRecordKeys(rows: seq<seq<string>>, k: string)
    requires forall i :: 0 <= i < |rows| ==> |rows[i]| == 2
    ensures k in PairsRecord(rows) <==> exists i :: 0 <= i < |rows| && rows[i][0] == k
  {
    if |rows| > 0 {
      var rows' := rows[..|rows| - 1];
      PairsRecordKeys(rows', k);
      assert forall i :: 0 <= i < |rows'| ==> rows'[i] == rows[i];
      if k == rows[|rows| - 1][0] {
        assert k in PairsRecord(rows);
      }
    }
  }

  lemma {:induction false} PairsRecordValue(rows: seq<seq<string>>, i: nat)
    requires forall i :: 0 <= i < |rows| ==> |rows[i]| == 2
    requires i < |rows|
    requires forall i' :: i < i' < |rows| ==> rows[i'][0] != rows[i][0]
    ensures rows[i][0] in PairsRecord(rows) && PairsRecord(rows)[rows[i][0]] == rows[i][1]
  {
    if i < |rows| - 1 {
      PairsRecordValue(rows[..|rows| - 1], i);
    }
  }

  /** `rowsHash()`: fails unless every row has exactly two columns. */
  function RowsHash(t: Table): (r: Result<Record, string>)
    ensures r.Failure? <==> exists i :: 0 <= i < |t.cells| && |t.cells[i]| != 2
    ensures r.Failure? ==> r.error == RowsHashError
  {
    if forall i :: 0 <= i < |t.cells| ==> |t.cells[i]| == 2 then Success(PairsRecord(Raw(t)))
    else Failure(RowsHashError)
  }

  /** On a two-column table, `rowsHash()` holds exactly the first-column
      values, each mapped to the second column of the last row naming it. */
  lemma RowsHashLookup(t: Table, i: nat, k: string)
    requires forall i :: 0 <= i < |t.cells| ==> |t.cells[i]| == 2
    requires i < |t.cells|
    requires forall i' :: i < i' < |t.cells| ==> t.cells[i'][0] != t.cells[i][0]
    ensures RowsHash(t).Success?
    ensures k in RowsHash(t).value <==> exists i :: 0 <= i < |t.cells| && t.cells[i][0] == k
    ensures t.cells[i][0] in RowsHash(t).value && RowsHash(t).value[t.cells[i][0]] == t.cells[i][1]
  {
    PairsRecordKeys(t.cells, k);
    PairsRecordValue(t.cells, i);
  }

  /** `list()`: fails unless every row has exactly one column; otherwise the
      column, top to bottom. */
  function List(t: Table): (r: Result<seq<string>, string>)
    ensures r.Failure? <==> exists i :: 0 <= i < |t.cells| && |t.cells[i]| != 1
    ensures r.Failure? ==> r.error == ListError
    ensures r.Success? ==> |r.value| == |t.cells|
    ensures r.Success? ==> forall i :: 0 <= i < |t.cells| ==> r.value[i] == t.cells[i][0]
  {
    if forall i :: 0 <= i < |t.cells| ==> |t.cells[i]| == 1 then
      FlattenSingletons(t.cells);
      Success(Flatten(Raw(t)))
    else Failure(ListError)
  }

  /** No row is shorter than the first one (Gherkin tables are rectangular). */
  predicate WideEnough(t: Table) {
    |t.cells| > 0 ==> forall k :: 0 <= k < |t.cells| ==> |t.cells[k]| >= |t.cells[0]|
  }

  predicate Rectangular(t: Table) {
    forall k :: 0 <= k < |t.cells| ==> |t.cells[k]| == |t.cells[0]|
  }

  /** `transpose()`: `cells[0]` is undefined on an empty table, so the call
      throws; otherwise column `i` becomes row `i`. */
  function Transpose(t: Table): (r: Option<Table>)
    requires WideEnough(t)
    ensures r.None? <==> |t.cells| == 0
    ensures r.Some? ==> |r.value.cells| == |t.cells[0]|
    ensures r.Some? ==> forall i :: 0 <= i < |r.value.cells| ==> |r.value.cells[i]| == |t.cells|
    ensures r.Some? ==> forall i, j :: 0 <= i < |r.value.cells| && 0 <= j < |t.cells| ==>
      r.value.cells[i][j] == t.cells[j][i]
  {
    if |t.cells| == 0 then None
    else
      Some(Table(seq(|t.cells[0]|, i requires 0 <= i < |t.cells[0]| =>
        seq(|t.cells|, j requires 0 <= j < |t.cells| => t.cells[j][i]))))
  }

  /** Transposing a non-empty rectangular table twice gives it back. */
  lemma TransposeTwice(t: Table)
    requires Rectangular(t)
    requires |t.cells| > 0 && |t.cells[0]| > 0
    ensures var u := Transpose(t).value; WideEnough(u) && Transpose(u) == Some(t)
  {
    var u := Transpose(t).value;
    assert Rectangular(u);
    var v := Transpose(u).value;
    assert |v.cells| == |t.cells|;
    forall j | 0 <= j < |t.cells| ensures v.cells[j] == t.cells[j] {
      assert |v.cells[j]| == |t.cells[j]|;
      forall i | 0 <= i < |t.cells[j]| ensures v.cells[j][i] == t.cells[j][i] {
        assert v.cells[j][i] == u.cells[i][j];
      }
    }
    assert v == t;
  }
}

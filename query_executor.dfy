/**
 * The three query helpers of DBproject (lines 86-180). The driver's result
 * set is a cursor over rows; each row holds `numCol` values that
 * `getString(i)` reads for 1 <= i <= numCol. Issuing the statement is the
 * driver's business: these methods start from the cursor it returned.
 */
module QueryExecutor {

  /** One row of a result, column values in column order. */
  type Row = seq<string>

  /** Every row of the cursor has the column count its metadata reports. */
  ghost predicate Rectangular(cursor: seq<Row>, numCol: nat)
  {
    forall k :: 0 <= k < |cursor| ==> |cursor[k]| == numCol
  }

  /** `rs.getString(i)`: columns are numbered from 1. */
  function GetString(row: Row, i: nat): string
    requires 1 <= i <= |row|
  {
    row[i - 1]
  }

  /** The inner `for (int i=1; i<=numCol; ++i) record.add(rs.getString(i))` loop. */
  method ReadRecord(row: Row, numCol: nat) returns (record: seq<string>)
    requires |row| == numCol
    ensures |record| == numCol
    ensures forall i :: 1 <= i <= numCol ==> record[i - 1] == GetString(row, i)
    ensures record == row
  {
    record := [];
    for i := 1 to numCol + 1
      invariant |record| == i - 1
      invariant forall c :: 1 <= c < i ==> record[c - 1] == GetString(row, c)
    {
      record := record + [GetString(row, i)];
    }
    forall c | 0 <= c < numCol
      ensures record[c] == row[c]
    {
      assert record[(c + 1) - 1] == GetString(row, c + 1);
    }
  }

  /**
   * executeQueryAndReturnResult: one record per cursor row, in cursor
   * order, each with the row's values in column order.
   */
  method ExecuteQueryAndReturnResult(cursor: seq<Row>, numCol: nat) returns (result: seq<Row>)
    requires Rectangular(cursor, numCol)
    ensures |result| == |cursor|
    ensures forall k :: 0 <= k < |result| ==> |result[k]| == numCol
    ensures forall k, i :: 0 <= k < |result| && 1 <= i <= numCol ==> result[k][i - 1] == GetString(cursor[k], i)
    ensures result == cursor
  {
    result := [];
    var next := 0;
    while next < |cursor|
      invariant 0 <= next <= |cursor|
      invariant |result| == next
      invariant forall k :: 0 <= k < next ==> result[k] == cursor[k]
    {
      var record := ReadRecord(cursor[next], numCol);
      result := result + [record];
      next := next + 1;
    }
  }

  /**
   * executeQueryAndPrintResult: returns the number of rows. What it prints
   * is given as lines of cells: the column names once, before the first
   * row and only if there is one, then every row.
   */
  method ExecuteQueryAndPrintResult(cursor: seq<Row>, columnNames: seq<string>)
    returns (rowCount: nat, printed: seq<seq<string>>)
    requires Rectangular(cursor, |columnNames|)
    ensures rowCount == |cursor|
    ensures printed == (if cursor == [] then [] else [columnNames]) + cursor
  {
    var numCol := |columnNames|;
    rowCount := 0;
    printed := [];
    var outputHeader := true;
    while rowCount < |cursor|
      invariant 0 <= rowCount <= |cursor|
      invariant outputHeader <==> rowCount == 0
      invariant printed == (if rowCount == 0 then [] else [columnNames]) + cursor[..rowCount]
    {
      if outputHeader {
        printed := printed + [columnNames];
        outputHeader := false;
      }
      var line := ReadRecord(cursor[rowCount], numCol);
      printed := printed + [line];
      rowCount := rowCount + 1;
    }
    assert cursor[..rowCount] == cursor;
  }

  /** executeQuery: an existence test, 1 when the cursor has a first row, else 0. */
  method ExecuteQuery(cursor: seq<Row>) returns (rowCount: nat)
    ensures rowCount <= 1
    ensures rowCount == 1 <==> cursor != []
  {
    rowCount := 0;
    if |cursor| > 0 {
      rowCount := rowCount + 1;
    }
  }
}

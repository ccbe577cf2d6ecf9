/** The row loop both importers share: every data row is judged on its own, accepted rows are kept in
    input order and rejected ones are logged with their spreadsheet row number. */
module Importing {
  import opened Records

  /** The verdict on one row: the row as it will be stored, or why it was rejected. */
  datatype Verdict<R> = Accept(record: Imported) | Reject(reason: R)

  /** A rejected row with its spreadsheet row number (the header is row 1). */
  datatype Failure<R> = Failure(row: nat, reason: R)

  /** The rows accepted by `judge`, in input order. */
  function ImportedOf<Row, R>(rows: seq<Row>, judge: Row -> Verdict<R>): seq<Imported>
  {
    if rows == [] then []
    else ImportedOf(rows[..|rows| - 1], judge) + match judge(rows[|rows| - 1])
      case Accept(x) => [x]
      case Reject(_) => []
  }

  /** The rows rejected by `judge`: data row `k` is spreadsheet row `k + 2`. */
  function FailuresOf<Row, R>(rows: seq<Row>, judge: Row -> Verdict<R>): seq<Failure<R>>
  {
    if rows == [] then []
    else FailuresOf(rows[..|rows| - 1], judge) + match judge(rows[|rows| - 1])
      case Accept(_) => []
      case Reject(why) => [Failure(|rows| + 1, why)]
  }

  /** Every row is either imported or logged as failed. */
  lemma {:induction false} ImportPartition<Row, R>(rows: seq<Row>, judge: Row -> Verdict<R>)
    ensures |ImportedOf(rows, judge)| + |FailuresOf(rows, judge)| == |rows|
  {
    if rows != [] {
      ImportPartition(rows[..|rows| - 1], judge);
    }
  }

  /** Each logged failure names a data row that was rejected for that reason, in increasing row order. */
  lemma {:induction false} FailuresNameTheirRows<Row, R>(rows: seq<Row>, judge: Row -> Verdict<R>)
    ensures forall k :: 0 <= k < |FailuresOf(rows, judge)| ==>
      var f := FailuresOf(rows, judge)[k];
      2 <= f.row < |rows| + 2 && judge(rows[f.row - 2]) == Reject(f.reason)
    ensures forall k, l :: 0 <= k < l < |FailuresOf(rows, judge)| ==>
      FailuresOf(rows, judge)[k].row < FailuresOf(rows, judge)[l].row
  {
    if rows != [] {
      var init := rows[..|rows| - 1];
      FailuresNameTheirRows(init, judge);
      var fs := FailuresOf(init, judge);
      assert forall k :: 0 <= k < |fs| ==> rows[fs[k].row - 2] == init[fs[k].row - 2];
    }
  }

  /** Each imported row is the record of some accepted data row. */
  lemma {:induction false} ImportedComeFromRows<Row, R>(rows: seq<Row>, judge: Row -> Verdict<R>)
    ensures forall x :: x in ImportedOf(rows, judge) ==> exists k :: 0 <= k < |rows| && judge(rows[k]) == Accept(x)
  {
    if rows != [] {
      var init := rows[..|rows| - 1];
      ImportedComeFromRows(init, judge);
      forall x | x in ImportedOf(rows, judge)
        ensures exists k :: 0 <= k < |rows| && judge(rows[k]) == Accept(x)
      {
        if x in ImportedOf(init, judge) {
          var k :| 0 <= k < |init| && judge(init[k]) == Accept(x);
          assert rows[k] == init[k];
        } else {
          assert judge(rows[|rows| - 1]) == Accept(x);
        }
      }
    }
  }

  /** Rows are judged independently: importing two blocks of rows is importing each block. */
  lemma {:induction false} ImportAppend<Row, R>(a: seq<Row>, b: seq<Row>, judge: Row -> Verdict<R>)
    ensures ImportedOf(a + b, judge) == ImportedOf(a, judge) + ImportedOf(b, judge)
  {
    if b == [] {
      assert a + b == a;
    } else {
      var b' := b[..|b| - 1];
      assert (a + b)[..|a + b| - 1] == a + b';
      assert (a + b)[|a + b| - 1] == b[|b| - 1];
      ImportAppend(a, b', judge);
    }
  }

  /** The `for row in rows: try ... except` loop: a rejected row is logged and the loop goes on. */
  method JudgeRows<Row, R>(rows: seq<Row>, judge: Row -> Verdict<R>) returns (imported: seq<Imported>, failed: seq<Failure<R>>)
    ensures imported == ImportedOf(rows, judge) && failed == FailuresOf(rows, judge)
  {
    imported, failed := [], [];
    var i := 0;
    while i < |rows|
      invariant 0 <= i <= |rows|
      invariant imported == ImportedOf(rows[..i], judge) && failed == FailuresOf(rows[..i], judge)
    {
      assert rows[..i + 1][..i] == rows[..i];
      match judge(rows[i]) {
        case Accept(x) =>
          imported := imported + [x];
        case Reject(why) =>
          failed := failed + [Failure(i + 2, why)];
      }
      i := i + 1;
    }
    assert rows[..i] == rows;
  }
}

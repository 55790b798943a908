/** get_logs_since.sql: the rows after an id, in sequence order. */
module LogQuery {
  import opened Wrappers
  import opened LogTable

  /** ORDER BY seq ASC NULLS LAST, id ASC. */
  predicate Leq(a: LogRow, b: LogRow) {
    match (a.seqNo, b.seqNo)
    case (Some(x), Some(y)) => x < y || (x == y && a.id <= b.id)
    case (Some(_), None) => true
    case (None, Some(_)) => false
    case (None, None) => a.id <= b.id
  }

  /** WHERE id > last. */
  function Since(rows: seq<LogRow>, last: nat): seq<LogRow> {
    if rows == [] then []
    else (if rows[0].id > last then [rows[0]] else []) + Since(rows[1..], last)
  }

  function Place(row: LogRow, sorted: seq<LogRow>): seq<LogRow> {
    if sorted == [] || Leq(row, sorted[0]) then [row] + sorted else [sorted[0]] + Place(row, sorted[1..])
  }

  function Sort(rows: seq<LogRow>): seq<LogRow> {
    if rows == [] then [] else Place(rows[0], Sort(rows[1..]))
  }

  function GetLogsSince(rows: seq<LogRow>, last: nat): seq<LogRow> {
    Sort(Since(rows, last))
  }

  ghost predicate Sorted(rows: seq<LogRow>) {
    forall i, j :: 0 <= i < j < |rows| ==> Leq(rows[i], rows[j])
  }

  ghost predicate InIdOrder(rows: seq<LogRow>) {
    forall i, j :: 0 <= i < j < |rows| ==> rows[i].id < rows[j].id
  }

  lemma {:induction false} PlaceAddsTheRow(row: LogRow, rows: seq<LogRow>)
    ensures multiset(Place(row, rows)) == multiset{row} + multiset(rows)
  {
    if rows == [] || Leq(row, rows[0]) {
      assert multiset([row] + rows) == multiset{row} + multiset(rows);
    } else {
      PlaceAddsTheRow(row, rows[1..]);
      assert rows == [rows[0]] + rows[1..];
    }
  }

  lemma {:induction false} PlaceKeepsSorted(row: LogRow, rows: seq<LogRow>)
    requires Sorted(rows)
    ensures Sorted(Place(row, rows)) && multiset(Place(row, rows)) == multiset{row} + multiset(rows)
  {
    PlaceAddsTheRow(row, rows);
    if rows != [] && !Leq(row, rows[0]) {
      PlaceKeepsSorted(row, rows[1..]);
      var rest := Place(row, rows[1..]);
      forall j | 0 <= j < |rest| ensures Leq(rows[0], rest[j]) {
        assert rest[j] in multiset(rest);
        assert rest[j] == row || rest[j] in rows[1..];
      }
    }
  }

  lemma {:induction false} SortSorts(rows: seq<LogRow>)
    ensures Sorted(Sort(rows)) && multiset(Sort(rows)) == multiset(rows)
  {
    if rows != [] {
      SortSorts(rows[1..]);
      PlaceKeepsSorted(rows[0], Sort(rows[1..]));
      assert rows == [rows[0]] + rows[1..];
    }
  }

  lemma {:induction false} SinceHoldsExactly(rows: seq<LogRow>, last: nat, row: LogRow)
    ensures row in Since(rows, last) <==> row in rows && row.id > last
  {
    if rows != [] {
      SinceHoldsExactly(rows[1..], last, row);
      assert rows == [rows[0]] + rows[1..];
    }
  }

  /** The reader gets exactly the visible rows after the cursor, each as often as it is stored, in seq order. */
  lemma AnswerIsExact(rows: seq<LogRow>, last: nat, row: LogRow)
    ensures row in GetLogsSince(rows, last) <==> row in rows && row.id > last
    ensures Sorted(GetLogsSince(rows, last)) && multiset(GetLogsSince(rows, last)) == multiset(Since(rows, last))
  {
    SortSorts(Since(rows, last));
    SinceHoldsExactly(rows, last, row);
    assert row in GetLogsSince(rows, last) <==> row in multiset(GetLogsSince(rows, last));
  }

  lemma {:induction false} SortedRowsStay(rows: seq<LogRow>)
    requires Sorted(rows)
    ensures Sort(rows) == rows
  {
    if rows != [] {
      SortedRowsStay(rows[1..]);
      if |rows| > 1 { assert Leq(rows[0], rows[1]); }
      assert rows == [rows[0]] + rows[1..];
    }
  }

  lemma {:induction false} SinceAppends(a: seq<LogRow>, b: seq<LogRow>, last: nat)
    ensures Since(a + b, last) == Since(a, last) + Since(b, last)
  {
    if a == [] {
      assert a + b == b;
    } else {
      SinceAppends(a[1..], b, last);
      assert (a + b)[1..] == a[1..] + b && (a + b)[0] == a[0];
      var first := if a[0].id > last then [a[0]] else [];
      assert Since(a, last) == first + Since(a[1..], last);
      assert first + (Since(a[1..], last) + Since(b, last)) == (first + Since(a[1..], last)) + Since(b, last);
    }
  }

  lemma {:induction false} SinceOfLater(rows: seq<LogRow>, last: nat)
    requires forall r :: r in rows ==> r.id > last
    ensures Since(rows, last) == rows
  {
    if rows != [] {
      SinceOfLater(rows[1..], last);
      assert rows == [rows[0]] + rows[1..];
    }
  }

  lemma {:induction false} SinceOfEarlier(rows: seq<LogRow>, last: nat)
    requires forall r :: r in rows ==> r.id <= last
    ensures Since(rows, last) == []
  {
    if rows != [] {
      SinceOfEarlier(rows[1..], last);
    }
  }

  lemma {:induction false} SinceKeepsSorted(rows: seq<LogRow>, last: nat)
    requires Sorted(rows)
    ensures Sorted(Since(rows, last))
  {
    if rows != [] {
      SinceKeepsSorted(rows[1..], last);
      forall r | r in Since(rows[1..], last) ensures Leq(rows[0], r) { SinceHoldsExactly(rows[1..], last, r); }
    }
  }

  ghost predicate NoneTwice(rows: seq<LogRow>) {
    forall i, j :: 0 <= i < j < |rows| ==> rows[i] != rows[j]
  }

  lemma {:induction false} SinceIsDistinct(rows: seq<LogRow>, cursor: nat)
    requires InIdOrder(rows)
    ensures forall r :: multiset(Since(rows, cursor))[r] <= 1
  {
    if rows != [] {
      SinceIsDistinct(rows[1..], cursor);
      SinceHoldsExactly(rows[1..], cursor, rows[0]);
      assert Since(rows, cursor) == (if rows[0].id > cursor then [rows[0]] else []) + Since(rows[1..], cursor);
    }
  }

  lemma {:induction false} AnswerIsDistinct(rows: seq<LogRow>, cursor: nat)
    requires InIdOrder(rows)
    ensures NoneTwice(GetLogsSince(rows, cursor))
  {
    var answer := GetLogsSince(rows, cursor);
    SinceIsDistinct(rows, cursor);
    SortSorts(Since(rows, cursor));
    forall i, j | 0 <= i < j < |answer| ensures answer[i] != answer[j] {
      assert answer == answer[..i] + [answer[i]] + answer[i + 1..j] + [answer[j]] + answer[j + 1..];
      assert multiset(answer)[answer[i]] <= 1;
    }
  }

  // ---------------------------------------------------------------- where the hypotheses are needed

  /** Two goroutines that queued lines 2, 1: the row with id 11 is printed again by the next poll. */
  lemma DisagreeingOrdersRepeatARow()
    ensures
      var rows := [LogRow(10, Some(2), "stdout", "b"), LogRow(11, Some(1), "stdout", "a")];
      && GetLogsSince(rows, 0) == [rows[1], rows[0]]
      && GetLogsSince(rows, 10) == [rows[1]]
  {
    var b, a := LogRow(10, Some(2), "stdout", "b"), LogRow(11, Some(1), "stdout", "a");
    var rows := [b, a];
    assert rows[1..] == [a] && rows[1..][1..] == [];
    assert Since(rows[1..], 0) == [a] && Since(rows, 0) == [b, a];
    assert [b, a][1..] == [a];
    assert Sort([a]) == [a];
    assert Place(b, [a]) == [a] + Place(b, [a][1..]);
    assert Since(rows[1..], 10) == [a] && Since(rows, 10) == [a];
  }
}

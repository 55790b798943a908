/**
  Whole streams of log reads: every answer is printed in full, and the cursor then stands at the
  id of the row printed last.
*/
module Streams {
  import opened LogTable
  import LogQuery

  /** The cursor after an answer has been printed. */
  function EndOf(answer: seq<LogRow>, cursor: nat): nat {
    if answer == [] then cursor else answer[|answer| - 1].id
  }

  /** The cursor after the first n answers. */
  function Cursor(answers: seq<seq<LogRow>>, from: nat, n: nat): nat
    requires n <= |answers|
  {
    if n == 0 then from else EndOf(answers[n - 1], Cursor(answers, from, n - 1))
  }

  /** Everything the first n answers show, in order. */
  function Shown(answers: seq<seq<LogRow>>, n: nat): seq<LogRow>
    requires n <= |answers|
  {
    if n == 0 then [] else Shown(answers, n - 1) + answers[n - 1]
  }

  /** The i-th answer is that of the query to the i-th table, from the cursor the viewer has then. */
  ghost predicate AnswerTo(answers: seq<seq<LogRow>>, tables: seq<seq<LogRow>>, from: nat, i: nat)
    requires i < |answers| && i < |tables|
  {
    answers[i] == LogQuery.GetLogsSince(tables[i], Cursor(answers, from, i))
  }

  ghost predicate AnswersTo(answers: seq<seq<LogRow>>, tables: seq<seq<LogRow>>, from: nat) {
    && |answers| == |tables|
    && forall i: nat {:trigger AnswerTo(answers, tables, from, i)} :: i < |answers| ==> AnswerTo(answers, tables, from, i)
  }

  // ---------------------------------------------------------------- what is shown

  /** The i-th log read sees this row above the cursor it has then. */
  ghost predicate ReadShows(answers: seq<seq<LogRow>>, tables: seq<seq<LogRow>>, from: nat, i: nat, row: LogRow)
    requires i < |answers| && i < |tables|
  {
    row in tables[i] && row.id > Cursor(answers, from, i)
  }

  lemma ReadShowsExactly(answers: seq<seq<LogRow>>, tables: seq<seq<LogRow>>, from: nat, i: nat, row: LogRow)
    requires AnswersTo(answers, tables, from) && i < |answers|
    ensures row in answers[i] <==> ReadShows(answers, tables, from, i, row)
  {
    assert AnswerTo(answers, tables, from, i);
    LogQuery.AnswerIsExact(tables[i], Cursor(answers, from, i), row);
  }

  /** Exactly when a stream shows a row: some read sees it above the cursor it has then. */
  lemma {:induction false} ShownExactly(answers: seq<seq<LogRow>>, tables: seq<seq<LogRow>>, from: nat, n: nat, row: LogRow)
    requires AnswersTo(answers, tables, from) && n <= |answers|
    ensures row in Shown(answers, n) <==>
      exists i: nat {:trigger ReadShows(answers, tables, from, i, row)} :: i < n && ReadShows(answers, tables, from, i, row)
  {
    if n > 0 {
      ShownExactly(answers, tables, from, n - 1, row);
      ReadShowsExactly(answers, tables, from, n - 1, row);
    }
  }

  lemma {:induction false} CursorsGrow(answers: seq<seq<LogRow>>, tables: seq<seq<LogRow>>, from: nat, m: nat, n: nat)
    requires AnswersTo(answers, tables, from) && m <= n <= |answers|
    ensures Cursor(answers, from, m) <= Cursor(answers, from, n)
    decreases n - m
  {
    if m < n {
      CursorsGrow(answers, tables, from, m, n - 1);
      var answer := answers[n - 1];
      if answer != [] { ReadShowsExactly(answers, tables, from, n - 1, answer[|answer| - 1]); }
    }
  }

  /**
    A row that is not visible before the cursor passed its id is never shown, by any later read of
    any table: the cursor never falls.  So rows must become visible in id order.
  */
  lemma LateRowsAreNeverShown(answers: seq<seq<LogRow>>, tables: seq<seq<LogRow>>, from: nat, m: nat, late: LogRow)
    requires AnswersTo(answers, tables, from) && m <= |answers| && late.id <= Cursor(answers, from, m)
    requires forall i :: 0 <= i < m ==> late !in tables[i]
    ensures late !in Shown(answers, |answers|)
  {
    ShownExactly(answers, tables, from, |answers|, late);
    forall i: nat | i < |answers| ensures !ReadShows(answers, tables, from, i, late) {
      if i >= m { CursorsGrow(answers, tables, from, m, i); }
    }
  }

  // ---------------------------------------------------------------- what is shown twice

  /** The log reads of a stream see a growing table. */
  ghost predicate GrowingReads(tables: seq<seq<LogRow>>) {
    && (forall i :: 0 <= i < |tables| ==> LogQuery.InIdOrder(tables[i]))
    && (forall i, j :: 0 <= i < j < |tables| ==> tables[i] <= tables[j])
  }

  ghost predicate AllUpTo(rows: seq<LogRow>, id: nat) {
    forall r :: r in rows ==> r.id <= id
  }

  /** No row that the i-th log read sees above its cursor has a larger id than the row that sorts last. */
  ghost predicate EndsAtLargest(answers: seq<seq<LogRow>>, tables: seq<seq<LogRow>>, from: nat, i: nat)
    requires i < |answers| && i < |tables|
  {
    forall r :: r in tables[i] && r.id > Cursor(answers, from, i) ==> r.id <= Cursor(answers, from, i + 1)
  }

  ghost predicate FirstEndAtLargest(answers: seq<seq<LogRow>>, tables: seq<seq<LogRow>>, from: nat, n: int)
    requires n <= |answers| && n <= |tables|
  {
    forall i: nat {:trigger EndsAtLargest(answers, tables, from, i)} :: i < n ==> EndsAtLargest(answers, tables, from, i)
  }

  lemma {:induction false} AnswerEndsAtLargest(answers: seq<seq<LogRow>>, tables: seq<seq<LogRow>>, from: nat, i: nat)
    requires AnswersTo(answers, tables, from) && i < |answers|
    ensures EndsAtLargest(answers, tables, from, i) <==> AllUpTo(answers[i], Cursor(answers, from, i + 1))
  {
    forall r ensures r in answers[i] <==> r in tables[i] && r.id > Cursor(answers, from, i) {
      ReadShowsExactly(answers, tables, from, i, r);
    }
  }

  lemma AnswerIsNew(answers: seq<seq<LogRow>>, tables: seq<seq<LogRow>>, from: nat, i: nat)
    requires AnswersTo(answers, tables, from) && GrowingReads(tables) && i < |answers|
    ensures LogQuery.NoneTwice(answers[i]) && forall r :: r in answers[i] ==> r.id > Cursor(answers, from, i)
  {
    assert AnswerTo(answers, tables, from, i);
    LogQuery.AnswerIsDistinct(tables[i], Cursor(answers, from, i));
    forall r | r in answers[i] ensures r.id > Cursor(answers, from, i) { ReadShowsExactly(answers, tables, from, i, r); }
  }

  lemma TogetherNoneTwice(rows: seq<LogRow>, more: seq<LogRow>)
    requires LogQuery.NoneTwice(rows) && LogQuery.NoneTwice(more) && forall r :: r in rows ==> r !in more
    ensures LogQuery.NoneTwice(rows + more)
  {
    forall i, j | 0 <= i < j < |rows + more| ensures (rows + more)[i] != (rows + more)[j] {
      if i < |rows| { assert rows[i] in rows; }
      if j >= |rows| { assert more[j - |rows|] in more; }
    }
  }

  /** As long as every answer ended at the largest id, everything shown lies at or below the cursor. */
  lemma {:induction false} ShownLiesBelow(answers: seq<seq<LogRow>>, tables: seq<seq<LogRow>>, from: nat, n: nat)
    requires AnswersTo(answers, tables, from) && n <= |answers| && FirstEndAtLargest(answers, tables, from, n)
    ensures AllUpTo(Shown(answers, n), Cursor(answers, from, n))
  {
    if n > 0 {
      ShownLiesBelow(answers, tables, from, n - 1);
      CursorsGrow(answers, tables, from, n - 1, n);
      assert EndsAtLargest(answers, tables, from, n - 1);
      AnswerEndsAtLargest(answers, tables, from, n - 1);
    }
  }

  lemma {:induction false} AgreeingReadsRepeatNothing(answers: seq<seq<LogRow>>, tables: seq<seq<LogRow>>, from: nat, n: nat)
    requires AnswersTo(answers, tables, from) && GrowingReads(tables)
    requires n <= |answers| && FirstEndAtLargest(answers, tables, from, n - 1)
    ensures LogQuery.NoneTwice(Shown(answers, n))
  {
    if n > 0 {
      AgreeingReadsRepeatNothing(answers, tables, from, n - 1);
      ShownLiesBelow(answers, tables, from, n - 1);
      AnswerIsNew(answers, tables, from, n - 1);
      TogetherNoneTwice(Shown(answers, n - 1), answers[n - 1]);
    }
  }

  lemma RepeatsStay(rows: seq<LogRow>, more: seq<LogRow>)
    requires !LogQuery.NoneTwice(rows)
    ensures !LogQuery.NoneTwice(rows + more)
  {
    var i, j :| 0 <= i < j < |rows| && rows[i] == rows[j];
    assert (rows + more)[i] == (rows + more)[j];
  }

  lemma RepeatedRow(rows: seq<LogRow>, more: seq<LogRow>, r: LogRow)
    requires r in rows && r in more
    ensures !LogQuery.NoneTwice(rows + more)
  {
    var i :| 0 <= i < |rows| && rows[i] == r;
    var j :| 0 <= j < |more| && more[j] == r;
    assert (rows + more)[i] == (rows + more)[|rows| + j];
  }

  /** The next read shows again what the last one showed above the new cursor. */
  lemma NextReadRepeats(answers: seq<seq<LogRow>>, tables: seq<seq<LogRow>>, from: nat, i: nat)
    requires AnswersTo(answers, tables, from) && GrowingReads(tables)
    requires i + 1 < |answers| && !EndsAtLargest(answers, tables, from, i)
    ensures !LogQuery.NoneTwice(Shown(answers, i + 2))
  {
    var r :| r in tables[i] && r.id > Cursor(answers, from, i) && r.id > Cursor(answers, from, i + 1);
    ReadShowsExactly(answers, tables, from, i, r);
    ReadShowsExactly(answers, tables, from, i + 1, r);
    RepeatedRow(Shown(answers, i + 1), answers[i + 1], r);
  }

  lemma {:induction false} DisagreeingReadRepeats(answers: seq<seq<LogRow>>, tables: seq<seq<LogRow>>, from: nat, n: nat, i: nat)
    requires AnswersTo(answers, tables, from) && GrowingReads(tables)
    requires i + 1 < n <= |answers| && !EndsAtLargest(answers, tables, from, i)
    ensures !LogQuery.NoneTwice(Shown(answers, n))
    decreases n
  {
    if i + 2 < n {
      DisagreeingReadRepeats(answers, tables, from, n - 1, i);
      RepeatsStay(Shown(answers, n - 1), answers[n - 1]);
    } else {
      NextReadRepeats(answers, tables, from, i);
    }
  }

  /**
    A stream over a growing table shows no row twice if and only if, at every log read before the
    last, no visible row above the cursor has an id larger than that of the row that sorts last.
  */
  lemma NothingIsRepeatedIff(answers: seq<seq<LogRow>>, tables: seq<seq<LogRow>>, from: nat)
    requires AnswersTo(answers, tables, from) && GrowingReads(tables)
    ensures LogQuery.NoneTwice(Shown(answers, |answers|)) <==> FirstEndAtLargest(answers, tables, from, |answers| - 1)
  {
    if FirstEndAtLargest(answers, tables, from, |answers| - 1) {
      AgreeingReadsRepeatNothing(answers, tables, from, |answers|);
    } else {
      var i: nat :| i < |answers| - 1 && !EndsAtLargest(answers, tables, from, i);
      DisagreeingReadRepeats(answers, tables, from, |answers|, i);
    }
  }

  // ---------------------------------------------------------------- one more read

  lemma {:induction false} ShownGrows(answers: seq<seq<LogRow>>, answer: seq<LogRow>, from: nat, n: nat)
    requires n <= |answers|
    ensures Cursor(answers + [answer], from, n) == Cursor(answers, from, n)
    ensures Shown(answers + [answer], n) == Shown(answers, n)
  {
    if n > 0 {
      ShownGrows(answers, answer, from, n - 1);
      assert (answers + [answer])[n - 1] == answers[n - 1];
    }
  }

  lemma OneMoreAnswer(answers: seq<seq<LogRow>>, tables: seq<seq<LogRow>>, from: nat, table: seq<LogRow>, answer: seq<LogRow>)
    requires AnswersTo(answers, tables, from)
    requires answer == LogQuery.GetLogsSince(table, Cursor(answers, from, |answers|))
    ensures AnswersTo(answers + [answer], tables + [table], from)
    ensures Shown(answers + [answer], |answers| + 1) == Shown(answers, |answers|) + answer
    ensures Cursor(answers + [answer], from, |answers| + 1) == EndOf(answer, Cursor(answers, from, |answers|))
  {
    ShownGrows(answers, answer, from, |answers|);
    forall i: nat | i < |answers| + 1 ensures AnswerTo(answers + [answer], tables + [table], from, i) {
      ShownGrows(answers, answer, from, i);
      if i < |answers| { assert AnswerTo(answers, tables, from, i); }
    }
  }
}

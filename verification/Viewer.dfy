/**
  streamTask: read the task's status, then the log rows after a cursor, print them, and stop at
  a terminal status.  The database may change between any two polls; each round carries the rows
  that were visible at its status read and at its log read.
*/
module Viewer {
  import opened Wrappers
  import opened LogTable
  import opened LogQuery
  import opened Streams

  // ---------------------------------------------------------------- the viewer

  datatype Status = Pending | Running | Completed | Failed | Cancelled | Stale

  predicate IsTerminal(s: Status) {
    s.Completed? || s.Failed? || s.Cancelled? || s.Stale?
  }

  datatype Read = Fine | Transient | Permanent

  /** One call of the check: what each read meets, and where printing breaks off, if it does. */
  datatype Round = Round(
    statusRead: Read, task: Option<Status>, atStatus: seq<LogRow>,
    logsRead: Read, atLogs: seq<LogRow>, printFails: Option<nat>)

  /** Rows become visible in id order: every later read sees the earlier rows and then larger ids. */
  ghost predicate Growing(rounds: seq<Round>) {
    && (forall i :: 0 <= i < |rounds| ==> Grows(rounds[i]))
    && (forall i, j :: 0 <= i < j < |rounds| ==> Grew(rounds[i], rounds[j]))
  }

  ghost predicate Grows(round: Round) {
    round.atStatus <= round.atLogs && InIdOrder(round.atLogs)
  }

  ghost predicate Grew(earlier: Round, later: Round) {
    earlier.atLogs <= later.atStatus
  }

  /** Sequence order and id order agree on every snapshot. */
  ghost predicate OrdersAgree(rounds: seq<Round>) {
    forall i :: 0 <= i < |rounds| ==> Sorted(rounds[i].atLogs)
  }

  ghost predicate Covers(printed: seq<LogRow>, rows: seq<LogRow>, from: nat) {
    forall r :: r in rows && r.id > from ==> r in printed
  }

  /** The cursor is where it began or the id of a row already seen. */
  predicate CursorAt(cursor: nat, from: nat, seen: seq<LogRow>) {
    cursor == from || (cursor > from && exists i :: 0 <= i < |seen| && seen[i].id == cursor)
  }

  /** One answer covers everything visible, although the cursor need not be the largest id. */
  lemma {:induction false} AnswerCovers(printed: seq<LogRow>, seen: seq<LogRow>, rows: seq<LogRow>, from: nat, cursor: nat)
    requires seen <= rows && InIdOrder(rows) && Covers(printed, seen, from) && CursorAt(cursor, from, seen)
    ensures Covers(printed + GetLogsSince(rows, cursor), rows, from)
  {
    forall r | r in rows && r.id > from ensures r in printed + GetLogsSince(rows, cursor) {
      AnswerIsExact(rows, cursor, r);
      if r.id <= cursor {
        var i :| 0 <= i < |seen| && seen[i].id == cursor;
        var k :| 0 <= k < |rows| && rows[k] == r;
        assert rows[i] == seen[i];
        assert k <= i;
        assert r in seen;
      }
    }
  }

  lemma CursorMoves(rows: seq<LogRow>, from: nat, cursor: nat, n: nat)
    requires from <= cursor && n < |GetLogsSince(rows, cursor)|
    ensures CursorAt(GetLogsSince(rows, cursor)[n].id, from, rows)
  {
    var r := GetLogsSince(rows, cursor)[n];
    AnswerIsExact(rows, cursor, r);
    var i :| 0 <= i < |rows| && rows[i] == r;
  }

  lemma AgreeingAnswerIsTheTail(rows: seq<LogRow>, cursor: nat)
    requires Sorted(rows)
    ensures GetLogsSince(rows, cursor) == Since(rows, cursor)
  {
    SinceKeepsSorted(rows, cursor);
    SortedRowsStay(Since(rows, cursor));
  }

  lemma TailIsNew(seen: seq<LogRow>, rows: seq<LogRow>, from: nat, cursor: nat)
    requires seen <= rows && InIdOrder(rows) && CursorAt(cursor, from, seen) && cursor != from
    ensures Since(rows[|seen|..], from) == rows[|seen|..] == Since(rows[|seen|..], cursor)
  {
    var tail := rows[|seen|..];
    var i :| 0 <= i < |seen| && seen[i].id == cursor;
    forall r | r in tail ensures r.id > cursor && r.id > from {
      var k :| 0 <= k < |tail| && tail[k] == r;
      assert rows[|seen| + k] == r && rows[i] == seen[i];
    }
    SinceOfLater(tail, from);
    SinceOfLater(tail, cursor);
  }

  /** When the orders agree, one answer is the part of the table after the cursor. */
  lemma {:induction false} AgreeingAnswer(seen: seq<LogRow>, rows: seq<LogRow>, from: nat, cursor: nat)
    requires seen <= rows && InIdOrder(rows) && Sorted(rows)
    requires CursorAt(cursor, from, seen) && Since(seen, cursor) == []
    ensures Since(rows, from) == Since(seen, from) + GetLogsSince(rows, cursor)
  {
    var tail := rows[|seen|..];
    assert rows == seen + tail;
    SinceAppends(seen, tail, from);
    SinceAppends(seen, tail, cursor);
    AgreeingAnswerIsTheTail(rows, cursor);
    if cursor != from { TailIsNew(seen, rows, from, cursor); }
  }

  lemma {:induction false} NothingIsLeft(rows: seq<LogRow>, cursor: nat)
    requires InIdOrder(rows) && Sorted(rows)
    ensures Since(rows, CursorAfter(rows, cursor)) == []
  {
    AgreeingAnswerIsTheTail(rows, cursor);
    if Since(rows, cursor) != [] { AnswerEndsAtTheLastId(rows, cursor); }
  }

  lemma AnswerEndsAtTheLastId(rows: seq<LogRow>, cursor: nat)
    requires InIdOrder(rows) && Sorted(rows) && Since(rows, cursor) != []
    ensures |Since(rows, cursor)| > 0
    ensures Since(rows, Since(rows, cursor)[|Since(rows, cursor)| - 1].id) == []
  {
    LastOfSince(rows, cursor);
    SinceOfEarlier(rows, rows[|rows| - 1].id);
  }

  lemma {:induction false} LastOfSince(rows: seq<LogRow>, cursor: nat)
    requires InIdOrder(rows) && Since(rows, cursor) != []
    ensures |rows| > 0 && Since(rows, cursor)[|Since(rows, cursor)| - 1] == rows[|rows| - 1]
    ensures forall r :: r in rows ==> r.id <= rows[|rows| - 1].id
  {
    var init, last := rows[..|rows| - 1], rows[|rows| - 1];
    assert rows == init + [last];
    SinceAppends(init, [last], cursor);
    if last.id <= cursor {
      SinceOfEarlier(rows, cursor);
    }
  }

  /** The cursor after the answer of one read. */
  function CursorAfter(rows: seq<LogRow>, cursor: nat): nat {
    EndOf(GetLogsSince(rows, cursor), cursor)
  }

  lemma {:induction false} ShownCovers(printed: seq<LogRow>, seen: seq<LogRow>, rows: seq<LogRow>, from: nat, cursor: nat)
    requires seen <= rows && InIdOrder(rows) && Covers(printed, seen, from) && CursorAt(cursor, from, seen)
    ensures Covers(printed + GetLogsSince(rows, cursor), rows, from)
    ensures CursorAt(CursorAfter(rows, cursor), from, rows)
  {
    AnswerCovers(printed, seen, rows, from, cursor);
    var logs := GetLogsSince(rows, cursor);
    if logs != [] { CursorMoves(rows, from, cursor, |logs| - 1); }
    else { CursorCarriesOver(cursor, from, seen, rows); }
  }

  lemma {:induction false} ShownIsExact(seen: seq<LogRow>, rows: seq<LogRow>, from: nat, cursor: nat)
    requires seen <= rows && InIdOrder(rows) && Sorted(rows)
    requires CursorAt(cursor, from, seen) && Since(seen, cursor) == []
    ensures Since(rows, from) == Since(seen, from) + GetLogsSince(rows, cursor)
    ensures Since(rows, CursorAfter(rows, cursor)) == []
  {
    AgreeingAnswer(seen, rows, from, cursor);
    NothingIsLeft(rows, cursor);
  }

  lemma CursorCarriesOver(cursor: nat, from: nat, seen: seq<LogRow>, rows: seq<LogRow>)
    requires seen <= rows && (CursorAt(cursor, from, seen) || CursorAt(cursor, from, rows))
    ensures CursorAt(cursor, from, rows)
  {
    if cursor != from && CursorAt(cursor, from, seen) {
      var i :| 0 <= i < |seen| && seen[i].id == cursor;
      assert rows[i].id == cursor;
    }
  }

  // ---------------------------------------------------------------- the log reads of a stream

  predicate ReadsLogs(round: Round) {
    round.statusRead.Fine? && round.task.Some? && round.logsRead.Fine?
  }

  function WithRead(tables: seq<seq<LogRow>>, round: Round): seq<seq<LogRow>> {
    if ReadsLogs(round) then tables + [round.atLogs] else tables
  }

  /** The tables at the log reads that the first n rounds get to. */
  function LogReads(rounds: seq<Round>, n: nat): seq<seq<LogRow>>
    requires n <= |rounds|
  {
    if n == 0 then [] else WithRead(LogReads(rounds, n - 1), rounds[n - 1])
  }

  ghost predicate IsARead(rows: seq<LogRow>, rounds: seq<Round>, n: nat)
    requires n <= |rounds|
  {
    exists i :: 0 <= i < n && rows == rounds[i].atLogs
  }

  lemma {:induction false} LogReadsGrow(rounds: seq<Round>, n: nat)
    requires n <= |rounds| && Growing(rounds)
    ensures GrowingReads(LogReads(rounds, n))
    ensures forall k :: 0 <= k < |LogReads(rounds, n)| ==> IsARead(LogReads(rounds, n)[k], rounds, n)
  {
    if n > 0 {
      LogReadsGrow(rounds, n - 1);
      var tables, last := LogReads(rounds, n - 1), rounds[n - 1];
      forall k | 0 <= k < |tables| ensures tables[k] <= last.atLogs && IsARead(tables[k], rounds, n) {
        var i :| 0 <= i < n - 1 && tables[k] == rounds[i].atLogs;
        assert Grew(rounds[i], last) && Grows(last);
      }
      assert IsARead(last.atLogs, rounds, n);
    }
  }

  /** What these answers to these tables show was printed after `before`, and the cursor follows. */
  ghost predicate StreamedTo(printed: seq<LogRow>, cursor: nat, before: seq<LogRow>, from: nat,
    answers: seq<seq<LogRow>>, tables: seq<seq<LogRow>>)
  {
    && AnswersTo(answers, tables, from)
    && printed == before + Shown(answers, |answers|) && cursor == Cursor(answers, from, |answers|)
  }

  lemma NothingStreamed(printed: seq<LogRow>, cursor: nat)
    ensures StreamedTo(printed, cursor, printed, cursor, [], [])
  {
    assert printed + [] == printed;
  }

  lemma StreamGoesOn(printed: seq<LogRow>, cursor: nat, before: seq<LogRow>, from: nat,
    answers: seq<seq<LogRow>>, tables: seq<seq<LogRow>>, table: seq<LogRow>, answer: seq<LogRow>)
    requires StreamedTo(printed, cursor, before, from, answers, tables) && answer == GetLogsSince(table, cursor)
    ensures StreamedTo(printed + answer, EndOf(answer, cursor), before, from, answers + [answer], tables + [table])
  {
    OneMoreAnswer(answers, tables, from, table, answer);
    assert before + (Shown(answers, |answers|) + answer) == before + Shown(answers, |answers|) + answer;
  }

  lemma StreamRepeatsIff(printed: seq<LogRow>, cursor: nat, from: nat, answers: seq<seq<LogRow>>, tables: seq<seq<LogRow>>)
    requires StreamedTo(printed, cursor, [], from, answers, tables) && GrowingReads(tables)
    ensures NoneTwice(printed) <==> FirstEndAtLargest(answers, tables, from, |answers| - 1)
  {
    assert [] + Shown(answers, |answers|) == Shown(answers, |answers|);
    NothingIsRepeatedIff(answers, tables, from);
  }

  // ---------------------------------------------------------------- streamTask

  ghost predicate Sees(round: Round, seen: seq<LogRow>) {
    seen <= round.atStatus
  }

  /** What was seen so far is part of every later read. */
  ghost predicate Ahead(seen: seq<LogRow>, rounds: seq<Round>, n: nat) {
    forall i {:trigger Sees(rounds[i], seen)} :: n <= i < |rounds| ==> Sees(rounds[i], seen)
  }

  lemma AheadStays(seen: seq<LogRow>, rounds: seq<Round>, n: nat)
    requires Growing(rounds) && n < |rounds| && Ahead(seen, rounds, n)
    ensures seen <= rounds[n].atStatus && Grows(rounds[n])
    ensures Ahead(seen, rounds, n + 1) && Ahead(rounds[n].atLogs, rounds, n + 1)
  {
    assert Sees(rounds[n], seen);
    forall i | n + 1 <= i < |rounds| ensures Sees(rounds[i], rounds[n].atLogs) {
      assert Grew(rounds[n], rounds[i]);
    }
  }

  datatype End = Finished(task: Status) | Interrupted | Gone | ReadFailed | PrintFailed

  /** How a round ends the stream, if it does and its lines can be printed. */
  function Verdict(round: Round): Option<End> {
    if round.statusRead.Permanent? then Some(ReadFailed)
    else if round.statusRead.Transient? then None
    else if round.task.None? then Some(Gone)
    else if round.logsRead.Permanent? then Some(ReadFailed)
    else if round.logsRead.Transient? || !IsTerminal(round.task.value) then None
    else Some(Finished(round.task.value))
  }

  /** Only a terminal status whose logs were read ends the stream with a task. */
  lemma VerdictIs(round: Round)
    ensures forall status :: Verdict(round) == Some(Finished(status)) <==>
      ReadsLogs(round) && round.task == Some(status) && status != Pending && status != Running
    ensures Verdict(round) == Some(Gone) <==> round.statusRead.Fine? && round.task.None?
    ensures Verdict(round) == Some(ReadFailed) <==>
      round.statusRead.Permanent? || (round.statusRead.Fine? && round.task.Some? && round.logsRead.Permanent?)
    ensures Verdict(round).Some? ==> !Verdict(round).value.Interrupted? && !Verdict(round).value.PrintFailed?
  {
  }

  /** The n-th round is the first that ends the stream; or none of n does, and the writer failed or the rounds are over. */
  ghost predicate EndsWith(end: End, rounds: seq<Round>, n: nat)
    requires n <= |rounds|
  {
    if end.PrintFailed? || end.Interrupted? then NoEnd(rounds, n) && (end.Interrupted? ==> n == |rounds|)
    else n > 0 && NoEnd(rounds, n - 1) && Verdict(rounds[n - 1]) == Some(end)
  }

  ghost predicate NoEnd(rounds: seq<Round>, n: nat)
    requires n <= |rounds|
  {
    forall i {:trigger Verdict(rounds[i])} :: 0 <= i < n ==> Verdict(rounds[i]) == None
  }

  /** The writer fails before the last of these rows. */
  predicate WriterFails(round: Round, rows: seq<LogRow>) {
    round.printFails.Some? && round.printFails.value < |rows|
  }

  class LogViewer {
    var lastLogId: nat
    var printed: seq<LogRow>

    constructor (from: nat)
      ensures lastLogId == from && printed == []
    {
      lastLogId, printed := from, [];
    }

    /** The print loop: the cursor follows the row just printed; a failing writer stops it. */
    method Print(logs: seq<LogRow>, fails: Option<nat>) returns (ok: bool)
      modifies this
      ensures ok <==> fails.None? || fails.value >= |logs|
      ensures ok ==> printed == old(printed) + logs && lastLogId == if logs == [] then old(lastLogId) else logs[|logs| - 1].id
      ensures !ok ==> printed == old(printed) + logs[..fails.value]
      ensures !ok ==> lastLogId == if fails.value == 0 then old(lastLogId) else logs[fails.value - 1].id
    {
      for i := 0 to |logs|
        invariant printed == old(printed) + logs[..i]
        invariant lastLogId == if i == 0 then old(lastLogId) else logs[i - 1].id
        invariant fails.Some? ==> i <= fails.value
      {
        if fails == Some(i) { return false; }
        printed, lastLogId := printed + [logs[i]], logs[i].id;
      }
      return true;
    }

    /** Everything seen after the starting cursor is printed, and the cursor is one of the ids seen. */
    ghost predicate Following(from: nat, seen: seq<LogRow>) reads this {
      Covers(printed, seen, from) && CursorAt(lastLogId, from, seen)
    }

    ghost predicate Exact(from: nat, seen: seq<LogRow>) reads this {
      printed == Since(seen, from) && Since(seen, lastLogId) == []
    }

    /** One log read and its printing: everything now visible after the starting cursor is printed. */
    method ShowNew(rows: seq<LogRow>, fails: Option<nat>, ghost from: nat, ghost seen: seq<LogRow>) returns (ok: bool)
      requires seen <= rows && InIdOrder(rows) && Following(from, seen)
      modifies this
      ensures ok <==> fails.None? || fails.value >= |GetLogsSince(rows, old(lastLogId))|
      ensures ok ==> Following(from, rows)
      ensures ok ==> printed == old(printed) + GetLogsSince(rows, old(lastLogId)) && lastLogId == CursorAfter(rows, old(lastLogId))
      ensures !ok ==> old(printed) <= printed <= old(printed) + GetLogsSince(rows, old(lastLogId))
      ensures ok && old(Exact(from, seen)) && Sorted(rows) ==> Exact(from, rows)
    {
      var logs := GetLogsSince(rows, lastLogId);
      ShownCovers(printed, seen, rows, from, lastLogId);
      if Sorted(rows) && Exact(from, seen) { ShownIsExact(seen, rows, from, lastLogId); }
      ghost var next := CursorAfter(rows, lastLogId);
      ok := Print(logs, fails);
      assert ok ==> lastLogId == next;
    }

    /** These answers were printed in full since the cursor was `from`. */
    ghost predicate Streamed(before: seq<LogRow>, from: nat, answers: seq<seq<LogRow>>, tables: seq<seq<LogRow>>) reads this {
      StreamedTo(printed, lastLogId, before, from, answers, tables)
    }

    /** The writer failed within the answer of this round's log read. */
    ghost predicate Broken(before: seq<LogRow>, from: nat, answers: seq<seq<LogRow>>, tables: seq<seq<LogRow>>, round: Round) reads this {
      && ReadsLogs(round) && AnswersTo(answers, tables, from)
      && before + Shown(answers, |answers|) <= printed
      && printed <= before + Shown(answers, |answers|) + GetLogsSince(round.atLogs, Cursor(answers, from, |answers|))
    }

    /**
      One call of the check: the status read, then the log read, then the printing.  It ends the
      stream when a read fails for good, the task is gone, the writer fails, or the status is terminal.
    */
    method CheckOnce(round: Round, ghost from: nat, ghost seen: seq<LogRow>) returns (end: Option<End>, ghost now: seq<LogRow>)
      requires seen <= round.atStatus && Grows(round) && Following(from, seen)
      modifies this
      ensures now == if ReadsLogs(round) then round.atLogs else seen
      ensures end != Some(PrintFailed) ==> Following(from, now) && Showed(old(printed), old(lastLogId), round)
      ensures end == Some(PrintFailed) ==>
        ReadsLogs(round) && old(printed) <= printed <= old(printed) + GetLogsSince(round.atLogs, old(lastLogId))
      ensures end != Some(PrintFailed) && old(Exact(from, seen)) && Sorted(round.atLogs) ==> Exact(from, now)
      ensures end == Some(PrintFailed) <==> ReadsLogs(round) && WriterFails(round, GetLogsSince(round.atLogs, old(lastLogId)))
      ensures end != Some(PrintFailed) ==> end == Verdict(round)
    {
      now := seen;
      if round.statusRead.Permanent? { return Some(ReadFailed), now; }
      if round.statusRead.Transient? { return None, now; }
      if round.task.None? { return Some(Gone), now; }
      if round.logsRead.Permanent? { return Some(ReadFailed), now; }
      if round.logsRead.Transient? { return None, now; }
      var ok := ShowNew(round.atLogs, round.printFails, from, now);
      now := round.atLogs;
      if !ok { return Some(PrintFailed), now; }
      end := if IsTerminal(round.task.value) then Some(Finished(round.task.value)) else None;
    }

    /** One round printed the answer of its log read, if it got to one. */
    ghost predicate Showed(before: seq<LogRow>, cursor: nat, round: Round) reads this {
      if ReadsLogs(round)
      then printed == before + GetLogsSince(round.atLogs, cursor) && lastLogId == EndOf(GetLogsSince(round.atLogs, cursor), cursor)
      else printed == before && lastLogId == cursor
    }

    /** What the end of one more round says of the end of the stream. */
    static lemma OneMoreRound(rounds: seq<Round>, i: nat, end: Option<End>)
      requires i < |rounds| && NoEnd(rounds, i) && (end != Some(PrintFailed) ==> end == Verdict(rounds[i]))
      ensures match end
              case None => NoEnd(rounds, i + 1)
              case Some(e) => EndsWith(e, rounds, if e.PrintFailed? then i else i + 1) && !e.Interrupted?
    {
    }

    /** The check of the next round of a list. */
    method CheckNext(rounds: seq<Round>, i: nat, ghost from: nat, ghost seen: seq<LogRow>,
      ghost before: seq<LogRow>, ghost start: nat, ghost answers: seq<seq<LogRow>>)
      returns (end: Option<End>, ghost now: seq<LogRow>, ghost all: seq<seq<LogRow>>)
      requires i < |rounds| && Growing(rounds) && Ahead(seen, rounds, i) && NoEnd(rounds, i)
      requires Following(from, seen) && Streamed(before, start, answers, LogReads(rounds, i))
      modifies this
      ensures end == Some(PrintFailed) ==> Broken(before, start, answers, LogReads(rounds, i), rounds[i])
      ensures end != Some(PrintFailed) ==> Following(from, now) && Streamed(before, start, all, LogReads(rounds, i + 1))
      ensures end != Some(PrintFailed) && old(Exact(from, seen)) && OrdersAgree(rounds) ==> Exact(from, now)
      ensures match end
              case None => NoEnd(rounds, i + 1)
              case Some(e) => EndsWith(e, rounds, if e.PrintFailed? then i else i + 1) && !e.Interrupted?
      ensures end.Some? && end.value.Finished? ==> now == rounds[i].atLogs
      ensures Ahead(now, rounds, i + 1)
    {
      AheadStays(seen, rounds, i);
      ghost var answer := GetLogsSince(rounds[i].atLogs, lastLogId);
      StreamGoesOn(printed, lastLogId, before, start, answers, LogReads(rounds, i), rounds[i].atLogs, answer);
      end, now := CheckOnce(rounds[i], from, seen);
      OneMoreRound(rounds, i, end);
      all := if ReadsLogs(rounds[i]) then answers + [answer] else answers;
    }

    /** The watcher: one check after the other, until one of them ends the stream or the rounds are over. */
    method Watch(rounds: seq<Round>, ghost from: nat, ghost seen: seq<LogRow>)
      returns (end: End, ghost now: seq<LogRow>, ghost ran: nat, ghost answers: seq<seq<LogRow>>)
      requires Growing(rounds) && Following(from, seen) && Ahead(seen, rounds, 0)
      modifies this
      ensures ran <= |rounds| && EndsWith(end, rounds, ran) && (end.Finished? ==> now == rounds[ran - 1].atLogs)
      ensures !end.PrintFailed? ==> Streamed(old(printed), old(lastLogId), answers, LogReads(rounds, ran))
      ensures end.PrintFailed? ==> ran < |rounds| && Broken(old(printed), old(lastLogId), answers, LogReads(rounds, ran), rounds[ran])
      ensures !end.PrintFailed? ==> Following(from, now)
      ensures !end.PrintFailed? && old(Exact(from, seen)) && OrdersAgree(rounds) ==> Exact(from, now)
    {
      end, now, ran, answers := Interrupted, seen, 0, [];
      NothingStreamed(printed, lastLogId);
      var next := 0;
      while next < |rounds|
        invariant ran == next <= |rounds| && Streamed(old(printed), old(lastLogId), answers, LogReads(rounds, ran))
        invariant end == Interrupted && Ahead(now, rounds, next) && NoEnd(rounds, next)
        invariant Following(from, now)
        invariant old(Exact(from, seen)) && OrdersAgree(rounds) ==> Exact(from, now)
      {
        var ended;
        ghost var all;
        ended, now, all := CheckNext(rounds, next, from, now, old(printed), old(lastLogId), answers);
        if ended == Some(PrintFailed) { return PrintFailed, now, next, answers; }
        next, answers := next + 1, all;
        if ended.Some? { return ended.value, now, next, answers; }
        ran := next;
      }
    }

    /**
      streamTask over the rounds of its watcher, starting anywhere it may have been interrupted.
      When it returns a task, every row visible at the terminal status read, and at the log read
      after it, was printed; no row is ever skipped.  When the orders agree, what was printed is
      exactly the table after the first cursor, once and in order; and a stream that began with
      nothing printed has printed no row twice if and only if every answer but the last ended at
      the largest id it held.
    */
    method StreamTask(rounds: seq<Round>, ghost from: nat, ghost seen: seq<LogRow>)
      returns (end: End, ghost now: seq<LogRow>, ghost ran: nat, ghost answers: seq<seq<LogRow>>)
      requires Growing(rounds) && Following(from, seen) && Ahead(seen, rounds, 0)
      modifies this
      ensures ran <= |rounds| && EndsWith(end, rounds, ran)
      ensures end.Finished? ==> rounds[ran - 1].atStatus <= rounds[ran - 1].atLogs == now
      ensures !end.PrintFailed? ==> Streamed(old(printed), old(lastLogId), answers, LogReads(rounds, ran))
      ensures end.PrintFailed? ==> ran < |rounds| && Broken(old(printed), old(lastLogId), answers, LogReads(rounds, ran), rounds[ran])
      ensures old(printed) == [] && !end.PrintFailed? ==>
        (NoneTwice(printed) <==> FirstEndAtLargest(answers, LogReads(rounds, ran), old(lastLogId), |answers| - 1))
      ensures !end.PrintFailed? ==> Following(from, now)
      ensures !end.PrintFailed? && old(Exact(from, seen)) && OrdersAgree(rounds) ==> Exact(from, now)
    {
      end, now, ran, answers := Watch(rounds, from, seen);
      LogReadsGrow(rounds, ran);
      if old(printed) == [] && !end.PrintFailed? {
        StreamRepeatsIff(printed, lastLogId, old(lastLogId), answers, LogReads(rounds, ran));
      }
      assert end.Finished? ==> Grows(rounds[ran - 1]);
    }
  }
}

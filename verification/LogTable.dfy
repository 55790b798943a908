/**
  The rows of task_logs that belong to one task.  Row ids come from one sequence shared with
  every other task, so they increase with gaps; seq is NULL for lines the worker writes itself.
*/
module LogTable {
  import opened Wrappers

  datatype LogEntry = LogEntry(seqNo: nat, stream: string, data: string)
  datatype LogRow = LogRow(id: nat, seqNo: Option<nat>, stream: string, data: string)

  predicate HasSeq(rows: seq<LogRow>, n: nat) {
    exists i :: 0 <= i < |rows| && rows[i].seqNo == Some(n)
  }

  function RowOf(id: nat, e: LogEntry): LogRow {
    LogRow(id, Some(e.seqNo), e.stream, e.data)
  }

  /** Rows are in id order, below the next id, and no sequence number occurs twice. */
  ghost predicate TableInv(rows: seq<LogRow>, nextId: nat) {
    && (forall i :: 0 <= i < |rows| ==> rows[i].id < nextId)
    && (forall i, j :: 0 <= i < j < |rows| ==> rows[i].id < rows[j].id)
    && (forall i, j :: 0 <= i < j < |rows| && rows[i].seqNo.Some? ==> rows[i].seqNo != rows[j].seqNo)
  }

  function InsertOne(rows: seq<LogRow>, nextId: nat, e: LogEntry): seq<LogRow> {
    if HasSeq(rows, e.seqNo) then rows else rows + [RowOf(nextId, e)]
  }

  /** The largest id among the rows after the first n, or 0 when there is none. */
  function LastNewId(rows: seq<LogRow>, n: nat): nat {
    if |rows| <= n then 0 else rows[|rows| - 1].id
  }

  /** INSERT ... ON CONFLICT DO NOTHING: an id is consumed for every entry, a row stored for new ones only. */
  function Insert(rows: seq<LogRow>, nextId: nat, entries: seq<LogEntry>): seq<LogRow>
    decreases |entries|
  {
    if entries == [] then rows
    else Insert(InsertOne(rows, nextId, entries[0]), nextId + 1, entries[1..])
  }

  predicate Stores(row: LogRow, e: LogEntry) {
    row.seqNo == Some(e.seqNo) && row.stream == e.stream && row.data == e.data
  }

  ghost predicate StoredIn(rows: seq<LogRow>, e: LogEntry) {
    exists i :: 0 <= i < |rows| && Stores(rows[i], e)
  }

  ghost predicate AllStored(rows: seq<LogRow>, entries: seq<LogEntry>) {
    forall k :: 0 <= k < |entries| ==> StoredIn(rows, entries[k])
  }

  /** Every numbered row is one of these entries, with its text. */
  ghost predicate NothingElse(rows: seq<LogRow>, entries: seq<LogEntry>) {
    forall i :: 0 <= i < |rows| && rows[i].seqNo.Some? ==> exists e :: e in entries && Stores(rows[i], e)
  }

  ghost predicate DistinctSeqs(entries: seq<LogEntry>) {
    forall i, j :: 0 <= i < j < |entries| ==> entries[i].seqNo != entries[j].seqNo
  }

  lemma {:induction false} InsertKeepsTable(rows: seq<LogRow>, nextId: nat, entries: seq<LogEntry>)
    requires TableInv(rows, nextId)
    ensures TableInv(Insert(rows, nextId, entries), nextId + |entries|)
    ensures rows <= Insert(rows, nextId, entries)
    decreases |entries|
  {
    if entries != [] {
      var more := InsertOne(rows, nextId, entries[0]);
      InsertKeepsTable(more, nextId + 1, entries[1..]);
    }
  }

  /** An entry whose number is already stored as it stands is left alone; the others are added. */
  lemma {:induction false} InsertStoresEntries(rows: seq<LogRow>, nextId: nat, entries: seq<LogEntry>, known: seq<LogEntry>)
    requires TableInv(rows, nextId) && NothingElse(rows, known) && DistinctSeqs(known)
    requires forall e :: e in entries ==> e in known
    ensures NothingElse(Insert(rows, nextId, entries), known)
    ensures AllStored(Insert(rows, nextId, entries), entries)
    decreases |entries|
  {
    if entries != [] {
      var e := entries[0];
      var more := InsertOne(rows, nextId, e);
      StoredAfterOne(rows, nextId, e, known);
      InsertKeepsTable(more, nextId + 1, entries[1..]);
      InsertStoresEntries(more, nextId + 1, entries[1..], known);
      var all := Insert(rows, nextId, entries);
      assert more <= all;
      forall k | 0 <= k < |entries| ensures StoredIn(all, entries[k]) {
        if k == 0 { StoredGrows(more, all, e); } else { assert entries[k] == entries[1..][k - 1]; }
      }
    }
  }

  lemma StoredGrows(rows: seq<LogRow>, all: seq<LogRow>, e: LogEntry)
    requires rows <= all && StoredIn(rows, e)
    ensures StoredIn(all, e)
  {
    var i :| 0 <= i < |rows| && Stores(rows[i], e);
    assert Stores(all[i], e);
  }

  lemma StoredAfterOne(rows: seq<LogRow>, nextId: nat, e: LogEntry, known: seq<LogEntry>)
    requires TableInv(rows, nextId) && NothingElse(rows, known) && DistinctSeqs(known) && e in known
    ensures
      var more := InsertOne(rows, nextId, e);
      TableInv(more, nextId + 1) && NothingElse(more, known) && StoredIn(more, e)
  {
    if HasSeq(rows, e.seqNo) {
      var i :| 0 <= i < |rows| && rows[i].seqNo == Some(e.seqNo);
      var e' :| e' in known && Stores(rows[i], e');
      assert e' == e;
      assert Stores(rows[i], e);
    } else {
      var more := rows + [RowOf(nextId, e)];
      assert Stores(more[|rows|], e);
    }
  }

  /** The lines without a number, in order. */
  function Plain(rows: seq<LogRow>): seq<(string, string)> {
    if rows == [] then []
    else
      var last := rows[|rows| - 1];
      Plain(rows[..|rows| - 1]) + if last.seqNo.None? then [(last.stream, last.data)] else []
  }

  lemma PlainGrows(rows: seq<LogRow>, row: LogRow)
    ensures Plain(rows + [row]) == if row.seqNo.None? then Plain(rows) + [(row.stream, row.data)] else Plain(rows)
  {
    assert (rows + [row])[..|rows|] == rows;
  }

  /** A batch adds no line without a number. */
  lemma {:induction false} InsertKeepsPlain(rows: seq<LogRow>, nextId: nat, entries: seq<LogEntry>)
    ensures Plain(Insert(rows, nextId, entries)) == Plain(rows)
    decreases |entries|
  {
    if entries != [] {
      PlainGrows(rows, RowOf(nextId, entries[0]));
      InsertKeepsPlain(InsertOne(rows, nextId, entries[0]), nextId + 1, entries[1..]);
    }
  }

  /** The table of one task, changed in place. */
  class Table {
    var rows: seq<LogRow>
    var nextId: nat

    ghost predicate Valid() reads this {
      TableInv(rows, nextId)
    }

    constructor ()
      ensures Valid() && rows == [] && nextId == 1
    {
      rows, nextId := [], 1;
    }

    /** Other tasks take ids from the same sequence. */
    method SkipIds(n: nat)
      requires Valid()
      modifies this`nextId
      ensures Valid() && nextId == old(nextId) + n
    {
      nextId := nextId + n;
    }

    /** DBLogger: one unnumbered line. */
    method InsertLog(stream: string, data: string) returns (id: nat)
      requires Valid()
      modifies this
      ensures Valid() && rows == old(rows) + [LogRow(id, None, stream, data)]
      ensures id == old(nextId) && nextId == id + 1
    {
      id := nextId;
      rows, nextId := rows + [LogRow(id, None, stream, data)], nextId + 1;
    }

    method Contains(n: nat) returns (found: bool)
      ensures found <==> HasSeq(rows, n)
    {
      found := false;
      for i := 0 to |rows|
        invariant found <==> exists j :: 0 <= j < i && rows[j].seqNo == Some(n)
      {
        if rows[i].seqNo == Some(n) { found := true; }
      }
    }

    method InsertEntry(e: LogEntry, maxId: nat, ghost before: seq<LogRow>) returns (newMax: nat)
      requires Valid() && before <= rows && maxId == LastNewId(rows, |before|)
      modifies this
      ensures Valid() && before <= rows
      ensures rows == InsertOne(old(rows), old(nextId), e) && nextId == old(nextId) + 1
      ensures newMax == LastNewId(rows, |before|)
    {
      newMax := maxId;
      var known := Contains(e.seqNo);
      if !known {
        rows := rows + [RowOf(nextId, e)];
        if nextId > maxId { newMax := nextId; }
      }
      nextId := nextId + 1;
    }

    /** InsertLogBatch: the largest id inserted, or 0 when every entry was already stored. */
    method InsertLogBatch(entries: seq<LogEntry>) returns (maxId: nat)
      requires Valid()
      modifies this
      ensures Valid() && rows == Insert(old(rows), old(nextId), entries)
      ensures nextId == old(nextId) + |entries|
      ensures maxId == LastNewId(rows, old(|rows|))
    {
      maxId := 0;
      var i := 0;
      while i < |entries|
        invariant 0 <= i <= |entries|
        invariant Valid() && nextId == old(nextId) + i && old(rows) <= rows
        invariant Insert(rows, nextId, entries[i..]) == Insert(old(rows), old(nextId), entries)
        invariant maxId == LastNewId(rows, old(|rows|))
      {
        assert entries[i..][0] == entries[i] && entries[i..][1..] == entries[i + 1..];
        maxId := InsertEntry(entries[i], maxId, old(rows));
        i := i + 1;
      }
    }
  }
}

/**
  TaskLogger: goroutines number lines and offer them to a bounded queue, one run loop moves
  them through a batch buffer into task_logs.

  Whatever other goroutines, other tasks and the database do between two actions of the loop is
  data: a list of Aside events, and for every INSERT whether it was applied and whether its
  reply arrived.
*/
module Logger {
  import opened Wrappers
  import opened LogTable

  /** What happens beside the run loop. */
  datatype Aside =
    | Log(stream: string, data: string)     // a goroutine numbers a line
    | Send(i: nat)                          // a numbered line gets into the queue
    | GiveUp(i: nat)                        // its context is done while the queue is full
    | OtherRows(n: nat)                     // other tasks take ids
    | WorkerLine(stream: string, data: string)
    | Shut                                  // Close: close(lines), then stopFlush

  /** One try of the retried INSERT: what else happened first, was it applied, did the reply arrive. */
  datatype Attempt = Attempt(meanwhile: seq<Aside>, applied: bool, replied: bool)

  /** What the run loop's select picks. */
  datatype Turn =
    | Idle(meanwhile: seq<Aside>)
    | Receive
    | Tick(attempts: seq<Attempt>)
    | Full(attempts: seq<Attempt>)

  /** PostgreSQL text cannot hold NUL: ReplaceAll(data, "\x00", ""). */
  function Clean(data: string): (r: string)
    ensures '\0' !in r
  {
    if data == "" then ""
    else if data[0] == '\0' then Clean(data[1..])
    else [data[0]] + Clean(data[1..])
  }

  /** Cleaning keeps every other character, in order, and changes nothing that has no NUL. */
  lemma {:induction false} CleanKeepsTheRest(data: string, more: string)
    ensures Clean(data + more) == Clean(data) + Clean(more)
    ensures '\0' !in data ==> Clean(data) == data
  {
    if data == "" {
      assert data + more == more;
    } else {
      assert (data + more)[1..] == data[1..] + more;
      CleanKeepsTheRest(data[1..], more);
    }
  }

  lemma CleanDropsNul()
    ensures Clean("\0") == ""
  {
    assert "\0"[1..] == "";
  }

  function Max(a: int, b: int): int { if a < b then b else a }

  // ---------------------------------------------------------------- what the inputs make of the lines

  /** The lines on their way into the queue, in it, and all that ever got in; and the worker's own lines. */
  datatype Front = Front(
    seqNo: nat, waiting: seq<LogEntry>, lines: seq<LogEntry>, accepted: seq<LogEntry>, closed: bool, plain: seq<(string, string)>)

  /** One event beside the loop: every line gets the next number, and is queued or given up once. */
  function Happen(f: Front, e: Aside, room: nat): Front {
    match e
    case Log(stream, data) => f.(seqNo := f.seqNo + 1, waiting := f.waiting + [LogEntry(f.seqNo + 1, stream, Clean(data))])
    case Send(i) =>
      if i < |f.waiting| && |f.lines| < room && !f.closed then
        f.(waiting := f.waiting[..i] + f.waiting[i + 1..], lines := f.lines + [f.waiting[i]], accepted := f.accepted + [f.waiting[i]])
      else f
    case GiveUp(i) => if i < |f.waiting| then f.(waiting := f.waiting[..i] + f.waiting[i + 1..]) else f
    case Shut => f.(closed := true)
    case WorkerLine(stream, data) => f.(plain := f.plain + [(stream, data)])
    case OtherRows(_) => f
  }

  function HappenAll(f: Front, events: seq<Aside>, n: nat, room: nat): Front
    requires n <= |events|
  {
    if n == 0 then f else Happen(HappenAll(f, events, n - 1, room), events[n - 1], room)
  }

  // ---------------------------------------------------------------- no line is lost or changed on its way

  function OneLogged(from: nat, event: Aside): seq<LogEntry> {
    match event
    case Log(stream, data) => [LogEntry(from + 1, stream, Clean(data))]
    case _ => []
  }

  function OneGivenUp(waiting: seq<LogEntry>, event: Aside): seq<LogEntry> {
    match event
    case GiveUp(i) => if i < |waiting| then [waiting[i]] else []
    case _ => []
  }

  /** The lines the first n events log, with the next numbers and their texts without NUL. */
  function LoggedLines(from: nat, events: seq<Aside>, n: nat): seq<LogEntry>
    requires n <= |events|
  {
    if n == 0 then []
    else
      var before := LoggedLines(from, events, n - 1);
      before + OneLogged(from + |before|, events[n - 1])
  }

  /** The lines whose goroutines gave up. */
  function GivenUp(f: Front, events: seq<Aside>, n: nat, room: nat): seq<LogEntry>
    requires n <= |events|
  {
    if n == 0 then []
    else GivenUp(f, events, n - 1, room) + OneGivenUp(HappenAll(f, events, n - 1, room).waiting, events[n - 1])
  }

  predicate OnItsWay(f: Front, line: LogEntry) {
    line in f.waiting || line in f.accepted
  }

  /** A line that was on its way, or is one of those logged, is still on its way or given up, and no other is. */
  predicate Conserved(f: Front, after: Front, logged: seq<LogEntry>, givenUp: seq<LogEntry>, line: LogEntry) {
    && after.seqNo == f.seqNo + |logged|
    && (OnItsWay(after, line) || line in givenUp <==> OnItsWay(f, line) || line in logged)
  }

  lemma TakenOut(waiting: seq<LogEntry>, i: nat, line: LogEntry)
    requires i < |waiting|
    ensures line in waiting <==> line in waiting[..i] + waiting[i + 1..] || line == waiting[i]
  {
    assert waiting == (waiting[..i] + [waiting[i]]) + waiting[i + 1..];
  }

  lemma OneEventConserves(f: Front, event: Aside, room: nat, line: LogEntry)
    ensures Conserved(f, Happen(f, event, room), OneLogged(f.seqNo, event), OneGivenUp(f.waiting, event), line)
  {
    match event
    case Send(i) => if i < |f.waiting| { TakenOut(f.waiting, i, line); }
    case GiveUp(i) => if i < |f.waiting| { TakenOut(f.waiting, i, line); }
    case _ =>
  }

  lemma OneMoreConserves(f: Front, before: Front, event: Aside, room: nat, logged: seq<LogEntry>, givenUp: seq<LogEntry>, line: LogEntry)
    requires Conserved(f, before, logged, givenUp, line)
    ensures
      Conserved(f, Happen(before, event, room),
        logged + OneLogged(f.seqNo + |logged|, event), givenUp + OneGivenUp(before.waiting, event), line)
  {
    OneEventConserves(before, event, room, line);
  }

  /**
    Whatever happens beside the loop, every line logged is, with its number, its stream and its text,
    waiting, accepted, or given up by its goroutine, and nothing else is.
  */
  lemma {:induction false} LinesAreConserved(f: Front, events: seq<Aside>, n: nat, room: nat, line: LogEntry)
    requires n <= |events|
    ensures Conserved(f, HappenAll(f, events, n, room), LoggedLines(f.seqNo, events, n), GivenUp(f, events, n, room), line)
  {
    if n > 0 {
      LinesAreConserved(f, events, n - 1, room, line);
      OneMoreConserves(f, HappenAll(f, events, n - 1, room), events[n - 1], room,
        LoggedLines(f.seqNo, events, n - 1), GivenUp(f, events, n - 1, room), line);
    }
  }

  predicate Answered(a: Attempt) {
    a.applied && a.replied
  }

  predicate AnyAnswered(attempts: seq<Attempt>) {
    exists k :: 0 <= k < |attempts| && Answered(attempts[k])
  }

  /** What happens beside the loop during the tries of a flush from the k-th on; the first answered one is the last. */
  function FlushMeets(f: Front, attempts: seq<Attempt>, k: nat, room: nat): Front
    requires k <= |attempts|
    decreases |attempts| - k
  {
    if k == |attempts| then f
    else
      var next := HappenAll(f, attempts[k].meanwhile, |attempts[k].meanwhile|, room);
      if Answered(attempts[k]) then next else FlushMeets(next, attempts, k + 1, room)
  }

  /** All that the run loop and the goroutines hold. */
  datatype Loop = Loop(front: Front, buf: seq<LogEntry>, confirmed: seq<LogEntry>)

  function Flushed(s: Loop, attempts: seq<Attempt>, room: nat): Loop {
    var front := FlushMeets(s.front, attempts, 0, room);
    if AnyAnswered(attempts) then Loop(front, [], s.confirmed + s.buf) else s.(front := front)
  }

  /** One turn of run. */
  function TurnOf(s: Loop, turn: Turn, limit: nat, room: nat): Loop {
    match turn
    case Idle(meanwhile) => s.(front := HappenAll(s.front, meanwhile, |meanwhile|, room))
    case Receive =>
      if |s.buf| < limit && s.front.lines != [] then
        s.(buf := s.buf + [s.front.lines[0]], front := s.front.(lines := s.front.lines[1..]))
      else s
    case Tick(attempts) => if 0 < |s.buf| < limit then Flushed(s, attempts, room) else s
    case Full(attempts) => if |s.buf| >= limit then Flushed(s, attempts, room) else s
  }

  function TurnsOf(s: Loop, turns: seq<Turn>, n: nat, limit: nat, room: nat): Loop
    requires n <= |turns|
  {
    if n == 0 then s else TurnOf(TurnsOf(s, turns, n - 1, limit, room), turns[n - 1], limit, room)
  }

  /** The logger was shut when this turn was about to begin. */
  predicate ClosedAt(s: Loop, turns: seq<Turn>, k: nat, limit: nat, room: nat)
    requires k <= |turns|
  {
    TurnsOf(s, turns, k, limit, room).front.closed
  }

  /** It was not before the first n turns. */
  ghost predicate OpenBefore(s: Loop, turns: seq<Turn>, n: nat, limit: nat, room: nat)
    requires n <= |turns|
  {
    forall k: nat {:trigger ClosedAt(s, turns, k, limit, room)} :: k < n ==> !ClosedAt(s, turns, k, limit, room)
  }

  /**
    How a drain ends with so many lines buffered and queued: the n-th flush is due when the buffer is
    full, and once more for what is left; the first that gives up ends it.
  */
  predicate DrainEnds(buffered: nat, queued: nat, limit: nat, plan: nat -> seq<Attempt>, n: nat)
    requires limit >= 1
    decreases queued
  {
    if buffered >= limit then AnyAnswered(plan(n)) && (queued == 0 || DrainEnds(1, queued - 1, limit, plan, n + 1))
    else if queued == 0 then buffered == 0 || AnyAnswered(plan(n))
    else DrainEnds(buffered + 1, queued - 1, limit, plan, n)
  }

  /** No flush gives up. */
  ghost predicate AlwaysAnswered(plan: nat -> seq<Attempt>) {
    forall n: nat :: AnyAnswered(plan(n))
  }

  /** Removing an element leaves the numbers distinct and loses only that one. */
  lemma DistinctWithout(front: seq<LogEntry>, waiting: seq<LogEntry>, i: nat)
    requires i < |waiting| && DistinctSeqs(front + waiting)
    ensures DistinctSeqs(front + (waiting[..i] + waiting[i + 1..]))
    ensures DistinctSeqs((front + [waiting[i]]) + (waiting[..i] + waiting[i + 1..]))
  {
    var all := front + waiting;
    var n := |front|;
    var kept := front + (waiting[..i] + waiting[i + 1..]);
    forall a, b | 0 <= a < b < |kept| ensures kept[a].seqNo != kept[b].seqNo {
      assert kept[a] == all[if a < n + i then a else a + 1];
      assert kept[b] == all[if b < n + i then b else b + 1];
    }
    var moved := (front + [waiting[i]]) + (waiting[..i] + waiting[i + 1..]);
    forall a, b | 0 <= a < b < |moved| ensures moved[a].seqNo != moved[b].seqNo {
      assert moved[a] == all[if a < n then a else if a == n then n + i else if a <= n + i then a - 1 else a];
      assert moved[b] == all[if b < n then b else if b == n then n + i else if b <= n + i then b - 1 else b];
    }
  }

  lemma DistinctPrefix(front: seq<LogEntry>, back: seq<LogEntry>)
    requires DistinctSeqs(front + back)
    ensures DistinctSeqs(front) && DistinctSeqs(back)
  {
    forall a, b | 0 <= a < b < |front| ensures front[a].seqNo != front[b].seqNo {
      assert (front + back)[a] == front[a] && (front + back)[b] == front[b];
    }
    forall a, b | 0 <= a < b < |back| ensures back[a].seqNo != back[b].seqNo {
      assert (front + back)[|front| + a] == back[a] && (front + back)[|front| + b] == back[b];
    }
  }

  lemma KnownGrows(rows: seq<LogRow>, known: seq<LogEntry>, more: seq<LogEntry>)
    requires NothingElse(rows, known) && forall e :: e in known ==> e in more
    ensures NothingElse(rows, more)
  {
  }

  class TaskLogger {
    const limit: nat
    const capacity: nat
    const table: Table
    var seqNo: nat                    // atomic counter
    var waiting: seq<LogEntry>        // numbered lines whose goroutines are blocked on the queue
    var lines: seq<LogEntry>          // the channel
    var closed: bool
    var buf: seq<LogEntry>
    ghost var accepted: seq<LogEntry>
    ghost var confirmed: seq<LogEntry>

    ghost predicate Numbered() reads this {
      && DistinctSeqs(accepted + waiting)
      && forall e :: e in accepted + waiting ==> e.seqNo <= seqNo
    }

    ghost predicate Stored() reads this, table {
      && table.Valid()
      && AllStored(table.rows, confirmed)
      && NothingElse(table.rows, confirmed + buf)
    }

    /**
      In every state: accepted lines are the confirmed ones, then the buffer, then the queue, in
      order; the table holds all confirmed lines and nothing beyond them and the buffer, each
      number once with its own text; at most `limit` lines are outside the queue.
    */
    ghost predicate Valid() reads this, table {
      && limit >= 1
      && accepted == confirmed + buf + lines
      && |buf| <= limit && |lines| <= Max(capacity, 1)
      && Numbered() && Stored()
    }

    constructor (flushLines: int, bufferSize: nat, table: Table)
      requires table.Valid() && table.rows == []
      ensures Valid() && this.table == table && Now() == Front(0, [], [], [], false, []) && buf == [] && confirmed == []
      ensures limit == Max(flushLines, 1) && capacity == bufferSize
    {
      this.limit, this.capacity, this.table := Max(flushLines, 1), bufferSize, table;
      seqNo, waiting, lines, closed, buf, accepted, confirmed := 0, [], [], false, [], [], [];
    }

    ghost function Now(): Front
      reads this, table
    {
      Front(seqNo, waiting, lines, accepted, closed, Plain(table.rows))
    }

    ghost function State(): Loop
      reads this, table
    {
      Loop(Now(), buf, confirmed)
    }

    /** How many lines fit into the queue. */
    function Room(): nat {
      Max(capacity, 1)
    }

    /** enqueue, first half: clean the text and take the next number. */
    method Number(stream: string, data: string)
      requires Valid()
      modifies this`seqNo, this`waiting
      ensures Valid()
      ensures seqNo == old(seqNo) + 1 && waiting == old(waiting) + [LogEntry(seqNo, stream, Clean(data))]
    {
      seqNo := seqNo + 1;
      assert accepted + (waiting + [LogEntry(seqNo, stream, Clean(data))])
        == (accepted + waiting) + [LogEntry(seqNo, stream, Clean(data))];
      waiting := waiting + [LogEntry(seqNo, stream, Clean(data))];
    }

    /** enqueue, second half: a blocked line enters the queue when there is room. */
    method Offer(i: nat)
      requires Valid() && i < |waiting| && |lines| < Max(capacity, 1) && !closed
      modifies this`waiting, this`lines, this`accepted
      ensures Valid() && lines == old(lines) + [old(waiting)[i]] && accepted == old(accepted) + [old(waiting)[i]]
      ensures waiting == old(waiting)[..i] + old(waiting)[i + 1..]
    {
      DistinctWithout(accepted, waiting, i);
      lines := lines + [waiting[i]];
      accepted := accepted + [waiting[i]];
      waiting := waiting[..i] + waiting[i + 1..];
    }

    method Drop(i: nat)
      requires Valid() && i < |waiting|
      modifies this`waiting
      ensures Valid() && waiting == old(waiting)[..i] + old(waiting)[i + 1..]
    {
      DistinctWithout(accepted, waiting, i);
      waiting := waiting[..i] + waiting[i + 1..];
    }

    /** Everything that runs beside the loop; none of it touches the buffer or what was confirmed. */
    method Beside(events: seq<Aside>)
      requires Valid()
      modifies this`seqNo, this`waiting, this`lines, this`accepted, this`closed, table
      ensures Valid() && old(accepted) <= accepted && old(lines) <= lines && (old(closed) ==> closed && lines == old(lines))
      ensures AllStored(old(table.rows), confirmed + buf) ==> AllStored(table.rows, confirmed + buf)
      ensures Now() == HappenAll(old(Now()), events, |events|, Room())
    {
      for k := 0 to |events|
        invariant Now() == HappenAll(old(Now()), events, k, Room())
        invariant Valid() && old(accepted) <= accepted && old(lines) <= lines
        invariant old(closed) ==> closed && lines == old(lines)
        invariant AllStored(old(table.rows), confirmed + buf) ==> AllStored(table.rows, confirmed + buf)
      {
        One(events[k]);
      }
    }

    method One(event: Aside)
      requires Valid()
      modifies this`seqNo, this`waiting, this`lines, this`accepted, this`closed, table
      ensures Valid() && old(accepted) <= accepted && old(lines) <= lines && (old(closed) ==> closed && lines == old(lines))
      ensures AllStored(old(table.rows), confirmed + buf) ==> AllStored(table.rows, confirmed + buf)
      ensures Now() == Happen(old(Now()), event, Room())
    {
      match event
      case Log(stream, data) => Number(stream, data);
      case Send(i) => if i < |waiting| && |lines| < Max(capacity, 1) && !closed { Offer(i); }
      case GiveUp(i) => if i < |waiting| { Drop(i); }
      case OtherRows(n) => table.SkipIds(n);
      case Shut => closed := true;
      case WorkerLine(stream, data) => WriteLine(stream, data);
    }

    /** DBLogger writes to the same table, without a number. */
    method WriteLine(stream: string, data: string)
      requires Valid()
      modifies table
      ensures Valid() && Plain(table.rows) == Plain(old(table.rows)) + [(stream, data)]
      ensures AllStored(old(table.rows), confirmed + buf) ==> AllStored(table.rows, confirmed + buf)
    {
      ghost var before := table.rows;
      var id := table.InsertLog(stream, data);
      PlainGrows(before, LogRow(id, None, stream, data));
      StoredKept(before, table.rows, confirmed);
      StoredKept(before, table.rows, confirmed + buf);
    }

    lemma StoredKept(rows: seq<LogRow>, all: seq<LogRow>, entries: seq<LogEntry>)
      requires rows <= all
      ensures AllStored(rows, entries) ==> AllStored(all, entries)
    {
      if AllStored(rows, entries) {
        forall k | 0 <= k < |entries| ensures StoredIn(all, entries[k]) {
          StoredGrows(rows, all, entries[k]);
        }
      }
    }

    /** The INSERT of the whole buffer: applied once more, it still stores every line exactly once. */
    method InsertBuffer()
      requires Valid()
      modifies table
      ensures Valid() && AllStored(table.rows, confirmed + buf) && Plain(table.rows) == Plain(old(table.rows))
    {
      ghost var before := table.rows;
      ghost var nextId := table.nextId;
      ghost var known := confirmed + buf;
      assert accepted + waiting == known + (lines + waiting);
      DistinctPrefix(known, lines + waiting);
      InsertStoresEntries(before, nextId, buf, known);
      InsertKeepsTable(before, nextId, buf);
      InsertKeepsPlain(before, nextId, buf);
      var maxId := table.InsertLogBatch(buf);
      StoredKept(before, table.rows, confirmed);
    }

    /** One try of the INSERT. */
    method TryOnce(attempt: Attempt) returns (ok: bool)
      requires Valid()
      modifies this`seqNo, this`waiting, this`lines, this`accepted, this`closed, table
      ensures Valid() && old(accepted) <= accepted && old(lines) <= lines && (old(closed) ==> closed && lines == old(lines))
      ensures ok == Answered(attempt) && (ok ==> AllStored(table.rows, confirmed + buf))
      ensures Now() == HappenAll(old(Now()), attempt.meanwhile, |attempt.meanwhile|, Room())
    {
      Beside(attempt.meanwhile);
      if attempt.applied { InsertBuffer(); }
      return attempt.applied && attempt.replied;
    }

    /** flush: retried until a reply arrives or the deadline; true only when the buffer is stored. */
    method Flush(attempts: seq<Attempt>) returns (ok: bool)
      requires Valid()
      modifies this`seqNo, this`waiting, this`lines, this`accepted, this`closed, table
      ensures Valid() && old(accepted) <= accepted && old(lines) <= lines && (old(closed) ==> closed && lines == old(lines))
      ensures ok ==> AllStored(table.rows, confirmed + buf)
      ensures ok <==> AnyAnswered(attempts)
      ensures Now() == FlushMeets(old(Now()), attempts, 0, Room())
    {
      ghost var before := Now();
      var k := 0;
      while k < |attempts|
        invariant k <= |attempts| && Valid() && old(accepted) <= accepted && old(lines) <= lines
        invariant FlushMeets(Now(), attempts, k, Room()) == FlushMeets(before, attempts, 0, Room())
        invariant old(closed) ==> closed && lines == old(lines)
        invariant forall j :: 0 <= j < k ==> !Answered(attempts[j])
      {
        ok := TryOnce(attempts[k]);
        if ok { return; }
        k := k + 1;
      }
      return false;
    }

    /** buf = buf[:0] after a successful flush. */
    method Confirm()
      requires Valid() && AllStored(table.rows, confirmed + buf)
      modifies this`buf, this`confirmed
      ensures Valid() && buf == [] && confirmed == old(confirmed) + old(buf)
    {
      confirmed, buf := confirmed + buf, [];
      assert confirmed + buf == confirmed;
    }

    /** Moving one line from the queue into the buffer. */
    method Take()
      requires Valid() && lines != [] && |buf| < limit
      modifies this`buf, this`lines
      ensures Valid() && buf == old(buf) + [old(lines)[0]] && lines == old(lines)[1..]
    {
      KnownGrows(table.rows, confirmed + buf, confirmed + (buf + [lines[0]]));
      assert confirmed + buf + lines == confirmed + (buf + [lines[0]]) + lines[1..];
      buf, lines := buf + [lines[0]], lines[1..];
    }

    /**
      drain: one shared deadline.  `plan(n)` is what the database does to the n-th flush.  When no
      flush gives up, every accepted line is confirmed.
    */
    method Drain(plan: nat -> seq<Attempt>) returns (complete: bool)
      requires Valid() && closed
      modifies this, table
      ensures Valid() && closed && accepted == old(accepted)
      ensures complete <==> buf == [] && lines == []
      ensures complete ==> confirmed == accepted
      ensures complete == DrainEnds(|old(buf)|, |old(lines)|, limit, plan, 0)
      ensures AlwaysAnswered(plan) ==> complete
    {
      var n := 0;
      while true
        invariant Valid() && closed && accepted == old(accepted)
        invariant DrainEnds(|buf|, |lines|, limit, plan, n) == DrainEnds(|old(buf)|, |old(lines)|, limit, plan, 0)
        decreases |lines|
      {
        if |buf| >= limit {
          var ok := Flush(plan(n));
          n := n + 1;
          if !ok { return false; }
          Confirm();
        }
        if lines == [] {
          if |buf| > 0 {
            var ok := Flush(plan(n));
            if !ok { return false; }
            Confirm();
          }
          return true;
        }
        Take();
      }
    }

    /** A flush of the buffer, which empties it if it is answered. */
    method FlushBuffer(attempts: seq<Attempt>)
      requires Valid()
      modifies this, table
      ensures Valid() && old(accepted) <= accepted && State() == Flushed(old(State()), attempts, Room())
    {
      var ok := Flush(attempts);
      if ok { Confirm(); }
    }

    /** One turn of the loop, as the inputs make it. */
    method OneTurn(turn: Turn)
      requires Valid()
      modifies this, table
      ensures Valid() && old(accepted) <= accepted && State() == TurnOf(old(State()), turn, limit, Room())
    {
      match turn {
        case Idle(meanwhile) => Beside(meanwhile);
        case Receive => if |buf| < limit && lines != [] { Take(); }
        case Tick(attempts) => if 0 < |buf| < limit { FlushBuffer(attempts); }
        case Full(attempts) => if |buf| >= limit { FlushBuffer(attempts); }
      }
    }

    /**
      run: the loop over whatever select picks, until the logger is shut and drained.  Which lines
      are accepted follows from the inputs alone; a drain that is complete has confirmed them all,
      and it is complete whenever every flush gets an answer in time.
    */
    method Run(turns: seq<Turn>, plan: nat -> seq<Attempt>) returns (complete: bool, ghost ran: nat)
      requires Valid()
      modifies this, table
      ensures Valid() && old(accepted) <= accepted && ran <= |turns|
      ensures accepted == TurnsOf(old(State()), turns, ran, limit, Room()).front.accepted
      ensures OpenBefore(old(State()), turns, ran, limit, Room())
      ensures ran == |turns| ==> State() == TurnsOf(old(State()), turns, ran, limit, Room())
      ensures ran < |turns| ==> closed && TurnsOf(old(State()), turns, ran, limit, Room()).front.closed
      ensures ran < |turns| ==>
        var end := TurnsOf(old(State()), turns, ran, limit, Room());
        complete == DrainEnds(|end.buf|, |end.front.lines|, limit, plan, 0)
      ensures complete ==> ran < |turns| && closed && confirmed == accepted && buf == [] && lines == []
      ensures ran < |turns| && AlwaysAnswered(plan) ==> complete
    {
      ran := 0;
      for k := 0 to |turns|
        invariant ran == k && Valid() && old(accepted) <= accepted
        invariant State() == TurnsOf(old(State()), turns, k, limit, Room())
        invariant OpenBefore(old(State()), turns, k, limit, Room())
      {
        if closed {
          complete := Drain(plan);
          return;
        }
        assert !ClosedAt(old(State()), turns, k, limit, Room());
        OneTurn(turns[k]);
        ran := k + 1;
      }
      complete := false;
    }

    /** When everything accepted is confirmed, each accepted line is stored in exactly one row, with its text. */
    lemma ConfirmedLinesAreStoredOnce(e: LogEntry)
      requires Valid() && confirmed == accepted
      ensures e in accepted ==>
        exists i :: 0 <= i < |table.rows| && Stores(table.rows[i], e) &&
          forall j :: 0 <= j < |table.rows| && table.rows[j].seqNo == Some(e.seqNo) ==> j == i
      ensures forall i :: 0 <= i < |table.rows| && table.rows[i].seqNo.Some? ==>
        exists a :: a in accepted && Stores(table.rows[i], a)
    {
      assert |accepted| == |confirmed| + |buf| + |lines|;
      assert confirmed + buf == accepted;
      if e in accepted {
        var k :| 0 <= k < |accepted| && accepted[k] == e;
        assert StoredIn(table.rows, confirmed[k]);
      }
    }
  }
}

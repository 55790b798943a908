/**
  What a worker of the protocol gets done when it meets no failure and nobody else acts: a claimed
  task is run, journaled, committed and acknowledged, and recovery empties the journal.
*/
module Progress {
  import opened Wrappers
  import opened Tasks
  import opened Journal
  import opened Protocol

  // ---------------------------------------------------------------- one worker's own moves

  /** What one worker sees and changes: the table, its workdir, itself, and what is remembered of it. */
  datatype View = View(db: Db, fs: Fs, p: Proc, past: History)

  predicate Ready(v: View, m: Move) {
    WorkerReady(v.db, v.p.pc, v.fs, m)
  }

  function Next(v: View, m: Move): View
    requires Ready(v, m) && !m.Start?
  {
    var t := TurnOf(v.db, v.p, v.fs, m);
    View(DbDo(v.db, t.db), FsDo(v.fs, t.fs), v.p.(pc := t.pc), Remember(v.past, t.note))
  }

  /** Recovery reads a record or finds it gone, and a claim may lose its reply. */
  predicate IdleChoices(v: View, id: string) {
    match v.p.pc
    case Recovering(names) =>
      Ready(v, if names == [] then FinishRecovery else if names[0] in v.fs.dir then RecoverRecord else RecordGone)
    case Idle => id in v.db.rows && v.db.rows[id].status.Pending? ==> Ready(v, ClaimTask(id)) && Ready(v, ClaimReplyLost(id))
    case _ => true
  }

  /** A run may fail before its payload starts, and end or be cancelled at any point after. */
  predicate RunChoices(v: View, code: int, finished: nat) {
    match v.p.pc
    case Subscribing(_) => Ready(v, Subscribe) && (finished != 0 ==> Ready(v, Finish(-1, finished)))
    case Checking(_) => Ready(v, CheckCancel) && (finished != 0 ==> Ready(v, Finish(-1, finished)))
    case Executing(_, _) => Ready(v, PollCancel) && Ready(v, CancelEvent) && (finished != 0 ==> Ready(v, Finish(code, finished)))
    case Stopping(_, _, _) => finished != 0 ==> Ready(v, Finish(code, finished))
    case _ => true
  }

  predicate SaveChoices(v: View, ino: nat) {
    match v.p.pc
    case Creating(_, _) => ino !in v.fs.files ==> Ready(v, NewTemp(ino))
    case Encoding(_, _, _) => Ready(v, EncodeRecord)
    case Syncing(_, _, _) => Ready(v, SyncRecord)
    case Linking(_, _, _) => Ready(v, LinkRecord)
    case Clashing(c, _, _) => Ready(v, if c.claim in v.fs.dir then ReadClash else ClashGone)
    case Publishing(_, _) => Ready(v, SyncLink)
    case _ => true
  }

  predicate CommitChoices(v: View) {
    match v.p.pc
    case Cleaning(_, _) => Ready(v, CleanUp)
    case Committing(_, _) => Ready(v, Commit) && Ready(v, CommitReplyLost)
    case Removing(_, _) => Ready(v, Acknowledge)
    case Acking(_, _) => Ready(v, SyncRemoval)
    case _ => true
  }

  /** No program point is a dead end: in a sound journal every name that is there can be read. */
  lemma WorkersGoOn(v: View, id: string, code: int, finished: nat, ino: nat)
    requires FsInv(v.fs)
    ensures IdleChoices(v, id) && RunChoices(v, code, finished) && SaveChoices(v, ino) && CommitChoices(v)
  {
    IdleWorkersGoOn(v, id);
    RunsGoOn(v, code, finished);
    SavesGoOn(v, ino);
    CommitsGoOn(v);
  }

  lemma IdleWorkersGoOn(v: View, id: string)
    requires FsInv(v.fs)
    ensures IdleChoices(v, id)
  {
    if v.p.pc.Recovering? && v.p.pc.names != [] && v.p.pc.names[0] in v.fs.dir { assert Sound(v.fs, v.fs.dir, v.p.pc.names[0]); }
  }

  lemma RunsGoOn(v: View, code: int, finished: nat)
    ensures RunChoices(v, code, finished)
  {
  }

  lemma SavesGoOn(v: View, ino: nat)
    requires FsInv(v.fs)
    ensures SaveChoices(v, ino)
  {
    if v.p.pc.Clashing? && v.p.pc.completion.claim in v.fs.dir { assert Sound(v.fs, v.fs.dir, v.p.pc.completion.claim); }
  }

  lemma CommitsGoOn(v: View)
    ensures CommitChoices(v)
  {
  }

  /** These moves are possible one after the other, and lead from one view to the other. */
  ghost predicate Goes(v: View, moves: seq<Move>, end: View)
    decreases |moves|
  {
    if moves == [] then end == v
    else !moves[0].Start? && Ready(v, moves[0]) && Goes(Next(v, moves[0]), moves[1..], end)
  }

  lemma {:induction false} GoesOn(v: View, a: seq<Move>, middle: View, b: seq<Move>, end: View)
    requires Goes(v, a, middle) && Goes(middle, b, end)
    ensures Goes(v, a + b, end)
    decreases |a|
  {
    if a == [] {
      assert a + b == b;
    } else {
      assert (a + b)[0] == a[0] && (a + b)[1..] == a[1..] + b;
      GoesOn(Next(v, a[0]), a[1..], middle, b, end);
    }
  }

  ghost predicate Moves(v: View, m: Move, v': View) {
    !m.Start? && Ready(v, m) && v' == Next(v, m)
  }

  lemma OneMove(v: View, m: Move, end: View)
    requires Moves(v, m, end)
    ensures Goes(v, [m], end)
  {
    assert [m][1..] == [];
  }

  lemma MoveFirst(v: View, m: Move, v': View, moves: seq<Move>, end: View)
    requires Moves(v, m, v') && Goes(v', moves, end)
    ensures Goes(v, [m] + moves, end)
  {
    assert ([m] + moves)[1..] == moves;
  }

  // ---------------------------------------------------------------- the same moves in the protocol

  function ViewOf(s: State, w: nat): View
    requires w in s.procs && s.procs[w].dir in s.disks
  {
    View(s.db, s.disks[s.procs[w].dir], s.procs[w], s.past)
  }

  /** The moves as steps of the protocol in which only this worker acts. */
  ghost predicate Works(s: State, w: nat, moves: seq<Move>, end: State)
    decreases |moves|
  {
    if moves == [] then end == s
    else Enabled(s, Work(w, moves[0])) && Works(Do(s, EffectOf(s, Work(w, moves[0]))), w, moves[1..], end)
  }

  lemma MoveIsAStep(s: State, w: nat, m: Move)
    requires w in s.procs && s.procs[w].dir in s.disks && !m.Start? && Ready(ViewOf(s, w), m)
    ensures Enabled(s, Work(w, m))
    ensures
      var s' := Do(s, EffectOf(s, Work(w, m)));
      w in s'.procs && s'.procs[w].dir in s'.disks && ViewOf(s', w) == Next(ViewOf(s, w), m)
  {
  }

  /** Whatever a worker can do on its own it can do in the protocol. */
  lemma {:induction false} MovesAreSteps(s: State, w: nat, moves: seq<Move>, v: View) returns (end: State)
    requires w in s.procs && s.procs[w].dir in s.disks && Goes(ViewOf(s, w), moves, v)
    ensures Works(s, w, moves, end) && w in end.procs && end.procs[w].dir in end.disks && ViewOf(end, w) == v
    decreases |moves|
  {
    if moves == [] {
      end := s;
    } else {
      MoveIsAStep(s, w, moves[0]);
      end := MovesAreSteps(Do(s, EffectOf(s, Work(w, moves[0]))), w, moves[1..], v);
    }
  }

  // ---------------------------------------------------------------- from the claim to the outcome

  function Claimed(v: View, id: string): Claim
    requires id in v.db.rows
  {
    GrantedClaim(v.db, id, v.p.name)
  }

  function RunMoves(id: string, code: int, finished: nat): seq<Move> {
    [ClaimTask(id)] + ([Subscribe] + ([CheckCancel] + [Finish(code, finished)]))
  }

  function AfterClaim(v: View, id: string, pc: Pc): View
    requires id in v.db.rows
  {
    View(DbDo(v.db, Grant(id, v.p.name)), v.fs, v.p.(pc := pc), v.past.(granted := v.past.granted + [Claimed(v, id)]))
  }

  function AfterStart(v: View, id: string): View
    requires id in v.db.rows
  {
    var k := Claimed(v, id);
    View(DbDo(v.db, Grant(id, v.p.name)), v.fs, v.p.(pc := Executing(k, v.db.clock + 1)),
      v.past.(granted := v.past.granted + [k], payloads := v.past.payloads + [Payload(k, v.db.clock + 1)]))
  }

  function AfterRun(v: View, id: string, code: int, finished: nat): View
    requires id in v.db.rows
  {
    var k := Claimed(v, id);
    var c := Completion(k, OutcomeOf(code, false, finished));
    View(DbDo(v.db, Grant(id, v.p.name)), v.fs, v.p.(pc := Creating(c, Loop)), v.past.(
      granted := v.past.granted + [k], payloads := v.past.payloads + [Payload(k, v.db.clock + 1)],
      verdicts := v.past.verdicts + {Verdict(c, Some(v.db.clock + 1), None)}, built := v.past.built + {c}))
  }

  lemma ClaimMoves(v: View, id: string)
    requires v.p.pc.Idle? && id in v.db.rows && v.db.rows[id].status.Pending?
    ensures Moves(v, ClaimTask(id), AfterClaim(v, id, Subscribing(Claimed(v, id))))
  {
  }

  lemma SubscribeMoves(v: View, k: Claim)
    requires v.p.pc == Subscribing(k)
    ensures Moves(v, Subscribe, v.(p := v.p.(pc := Checking(k))))
  {
  }

  lemma CheckMoves(v: View, k: Claim)
    requires v.p.pc == Checking(k) && !CancelRequested(v.db, k.task)
    ensures
      Moves(v, CheckCancel,
        View(v.db, v.fs, v.p.(pc := Executing(k, v.db.clock)), v.past.(payloads := v.past.payloads + [Payload(k, v.db.clock)])))
  {
  }

  lemma FinishMoves(v: View, id: string, code: int, finished: nat)
    requires id in v.db.rows && finished != 0
    ensures Moves(AfterStart(v, id), Finish(code, finished), AfterRun(v, id, code, finished))
  {
  }

  /** A worker that is killed is down and leaves everything else as it was. */
  lemma KillLeavesTheRest(v: View)
    ensures Moves(v, Kill, v.(p := v.p.(pc := Down)))
  {
  }

  function AfterVerdict(v: View, o: Outcome, k: Claim, read: Option<nat>, why: Option<Evidence>): View {
    var c := Completion(k, o);
    v.(p := v.p.(pc := Creating(c, Loop)), past := v.past.(verdicts := v.past.verdicts + {Verdict(c, read, why)}, built := v.past.built + {c}))
  }

  /** A run that meets a cancel event, or whose poll sees the request, ends as cancelled with -1, whatever the payload returns. */
  lemma RunsAreStopped(v: View, code: int, finished: nat)
    requires v.p.pc.Executing? && finished != 0
    ensures var k := v.p.pc.claim;
      && Goes(v, [CancelEvent] + [Finish(code, finished)],
           AfterVerdict(v, Outcome(Cancelled, -1, finished), k, Some(v.p.pc.lastRead), Some(Event)))
      && (CancelRequested(v.db, k.task) ==>
           Goes(v, [PollCancel] + [Finish(code, finished)],
             AfterVerdict(v, Outcome(Cancelled, -1, finished), k, Some(v.db.clock), Some(ReadAt(v.db.clock)))))
  {
    var k, read := v.p.pc.claim, v.p.pc.lastRead;
    StopMoves(v, k, CancelEvent, Some(read), Event, code, finished);
    if CancelRequested(v.db, k.task) { StopMoves(v, k, PollCancel, Some(v.db.clock), ReadAt(v.db.clock), code, finished); }
  }

  lemma StopMoves(v: View, k: Claim, m: Move, read: Option<nat>, why: Evidence, code: int, finished: nat)
    requires finished != 0 && Moves(v, m, v.(p := v.p.(pc := Stopping(k, read, why))))
    ensures Goes(v, [m] + [Finish(code, finished)], AfterVerdict(v, Outcome(Cancelled, -1, finished), k, read, Some(why)))
  {
    var stopping := v.(p := v.p.(pc := Stopping(k, read, why)));
    var end := AfterVerdict(v, Outcome(Cancelled, -1, finished), k, read, Some(why));
    FinishStopped(v, k, read, why, code, finished);
    OneMove(stopping, Finish(code, finished), end);
    MoveFirst(v, m, stopping, [Finish(code, finished)], end);
  }

  lemma FinishStopped(v: View, k: Claim, read: Option<nat>, why: Evidence, code: int, finished: nat)
    requires finished != 0
    ensures Moves(v.(p := v.p.(pc := Stopping(k, read, why))), Finish(code, finished),
      AfterVerdict(v, Outcome(Cancelled, -1, finished), k, read, Some(why)))
  {
  }

  /** A claim whose subscription or first read fails is built as failed with -1, and its payload never starts. */
  lemma RunsMayFailToStart(v: View, finished: nat)
    requires (v.p.pc.Subscribing? || v.p.pc.Checking?) && finished != 0
    ensures Moves(v, Finish(-1, finished), AfterVerdict(v, Outcome(Failed, -1, finished), v.p.pc.claim, None, None))
  {
  }

  /** A pending task is claimed, its payload is started and ends, and its outcome is built. */
  lemma TaskIsRun(v: View, id: string, code: int, finished: nat)
    requires v.p.pc.Idle? && DbInv(v.db) && id in v.db.rows && v.db.rows[id].status.Pending? && finished != 0
    ensures Goes(v, RunMoves(id, code, finished), AfterRun(v, id, code, finished))
  {
    var k, end := Claimed(v, id), AfterRun(v, id, code, finished);
    var claimed, checking := AfterClaim(v, id, Subscribing(k)), AfterClaim(v, id, Checking(k));
    FinishMoves(v, id, code, finished);
    OneMove(AfterStart(v, id), Finish(code, finished), end);
    assert !CancelRequested(checking.db, id);
    CheckMoves(checking, k);
    MoveFirst(checking, CheckCancel, AfterStart(v, id), [Finish(code, finished)], end);
    SubscribeMoves(claimed, k);
    MoveFirst(claimed, Subscribe, checking, [CheckCancel] + [Finish(code, finished)], end);
    ClaimMoves(v, id);
    MoveFirst(v, ClaimTask(id), claimed, [Subscribe] + ([CheckCancel] + [Finish(code, finished)]), end);
  }

  function PrepareMoves(ino: nat): seq<Move> {
    [NewTemp(ino)] + ([EncodeRecord] + [SyncRecord])
  }

  const PublishMoves := [LinkRecord] + ([SyncLink] + [CleanUp])

  function SaveMoves(ino: nat): seq<Move> {
    PrepareMoves(ino) + PublishMoves
  }

  function WithFile(fs: Fs, c: Completion, ino: nat): Fs {
    fs.(files := fs.files[ino := File(Some(c), true)])
  }

  function AfterPrepare(v: View, c: Completion, next: Protocol.Next, ino: nat): View {
    v.(fs := WithFile(v.fs, c, ino), p := v.p.(pc := Linking(c, next, ino)))
  }

  /** The record is complete and synced before it can be linked. */
  lemma FileIsPrepared(v: View, c: Completion, next: Protocol.Next, ino: nat)
    requires v.p.pc == Creating(c, next) && ino !in v.fs.files
    ensures Goes(v, PrepareMoves(ino), AfterPrepare(v, c, next, ino))
  {
    var a := v.(fs := v.fs.(files := v.fs.files[ino := File(None, false)]), p := v.p.(pc := Encoding(c, next, ino)));
    var b := v.(fs := v.fs.(files := v.fs.files[ino := File(Some(c), false)]), p := v.p.(pc := Syncing(c, next, ino)));
    assert Moves(v, NewTemp(ino), a);
    assert Moves(a, EncodeRecord, b);
    assert Moves(b, SyncRecord, AfterPrepare(v, c, next, ino));
    OneMove(b, SyncRecord, AfterPrepare(v, c, next, ino));
    MoveFirst(a, EncodeRecord, b, [SyncRecord], AfterPrepare(v, c, next, ino));
    MoveFirst(v, NewTemp(ino), a, [EncodeRecord] + [SyncRecord], AfterPrepare(v, c, next, ino));
  }

  function AfterSave(v: View, c: Completion, next: Protocol.Next, ino: nat): View {
    View(v.db, Fs(WithFile(v.fs, c, ino).files, v.fs.dir[c.claim := ino], v.fs.dir[c.claim := ino]), v.p.(pc := Committing(c, next)),
      v.past.(saved := v.past.saved + {Saved(v.p.dir, c)}, cleaned := v.past.cleaned + {Saved(v.p.dir, c)}))
  }

  /** When the name is taken the record that is there is kept, synced, and becomes the outcome of the claim. */
  lemma EarlierRecordIsTaken(v: View, c: Completion, next: Protocol.Next, ino: nat, earlier: Completion)
    requires v.p.pc == Linking(c, next, ino) && Decode(v.fs, c.claim) == Some(earlier)
    ensures
      Goes(v, [LinkRecord] + ([ReadClash] + ([SyncLink] + [CleanUp])), View(
        v.db, v.fs.(disk := v.fs.dir), v.p.(pc := Committing(earlier, next)),
        v.past.(saved := v.past.saved + {Saved(v.p.dir, earlier)}, cleaned := v.past.cleaned + {Saved(v.p.dir, earlier)})))
  {
    var clash := v.(p := v.p.(pc := Clashing(c, next, ino)));
    var read := v.(p := v.p.(pc := Publishing(earlier, next)));
    var synced := View(v.db, v.fs.(disk := v.fs.dir), v.p.(pc := Cleaning(earlier, next)), v.past.(saved := v.past.saved + {Saved(v.p.dir, earlier)}));
    var end := synced.(p := v.p.(pc := Committing(earlier, next)), past := synced.past.(cleaned := v.past.cleaned + {Saved(v.p.dir, earlier)}));
    assert Moves(v, LinkRecord, clash) && Moves(clash, ReadClash, read);
    assert Moves(read, SyncLink, synced);
    assert Moves(synced, CleanUp, end);
    OneMove(synced, CleanUp, end);
    MoveFirst(read, SyncLink, synced, [CleanUp], end);
    MoveFirst(clash, ReadClash, read, [SyncLink] + [CleanUp], end);
    MoveFirst(v, LinkRecord, clash, [ReadClash] + ([SyncLink] + [CleanUp]), end);
  }

  /** The file gets its name, the directory is synced, and only then task files go. */
  lemma RecordIsPublished(v: View, c: Completion, next: Protocol.Next, ino: nat)
    requires c.claim !in v.fs.dir
    ensures Goes(AfterPrepare(v, c, next, ino), PublishMoves, AfterSave(v, c, next, ino))
  {
    var u, end := AfterPrepare(v, c, next, ino), AfterSave(v, c, next, ino);
    var a := u.(fs := u.fs.(dir := v.fs.dir[c.claim := ino]), p := v.p.(pc := Publishing(c, next)));
    var b := a.(fs := a.fs.(disk := a.fs.dir), p := v.p.(pc := Cleaning(c, next)), past := v.past.(saved := v.past.saved + {Saved(v.p.dir, c)}));
    assert Moves(u, LinkRecord, a);
    assert Moves(a, SyncLink, b);
    assert Moves(b, CleanUp, end);
    OneMove(b, CleanUp, end);
    MoveFirst(a, SyncLink, b, [CleanUp], end);
    MoveFirst(u, LinkRecord, a, [SyncLink] + [CleanUp], end);
  }

  lemma OutcomeIsSaved(v: View, c: Completion, next: Protocol.Next, ino: nat)
    requires v.p.pc == Creating(c, next) && c.claim !in v.fs.dir && ino !in v.fs.files
    ensures Goes(v, SaveMoves(ino), AfterSave(v, c, next, ino))
  {
    FileIsPrepared(v, c, next, ino);
    RecordIsPublished(v, c, next, ino);
    GoesOn(v, PrepareMoves(ino), AfterPrepare(v, c, next, ino), PublishMoves, AfterSave(v, c, next, ino));
  }

  const CommitMoves := [Commit] + ([Acknowledge] + [SyncRemoval])

  function AfterCommit(v: View, c: Completion, next: Protocol.Next): View {
    View(DbDo(v.db, Complete(c)), v.fs.(dir := v.fs.dir - {c.claim}, disk := v.fs.dir - {c.claim}), v.p.(pc := After(next)),
      if Confirms(v.db, c) then v.past.(confirmed := v.past.confirmed + {c}) else v.past)
  }

  /** The outcome is sent to the database and then its record is removed. */
  lemma OutcomeIsCommitted(v: View, c: Completion, next: Protocol.Next)
    requires v.p.pc == Committing(c, next)
    ensures Goes(v, CommitMoves, AfterCommit(v, c, next))
  {
    var end := AfterCommit(v, c, next);
    var a := View(DbDo(v.db, Complete(c)), v.fs, v.p.(pc := Removing(c, next)), end.past);
    var b := a.(fs := v.fs.(dir := v.fs.dir - {c.claim}), p := v.p.(pc := Acking(c, next)));
    assert Moves(v, Commit, a);
    assert Moves(a, Acknowledge, b);
    assert Moves(b, SyncRemoval, end);
    OneMove(b, SyncRemoval, end);
    MoveFirst(a, Acknowledge, b, [SyncRemoval], end);
    MoveFirst(v, Commit, a, [Acknowledge] + [SyncRemoval], end);
  }

  /** The whole turn of the loop of Run for one task. */
  function TaskMoves(id: string, code: int, finished: nat, ino: nat): seq<Move> {
    RunMoves(id, code, finished) + (SaveMoves(ino) + CommitMoves)
  }

  /** What a worker that met no failure leaves: the outcome in the row, no record, and itself ready for the next claim. */
  ghost predicate TaskDone(v: View, end: View, id: string, code: int, finished: nat)
    requires id in v.db.rows
  {
    var k, o := Claimed(v, id), OutcomeOf(code, false, finished);
    && Matches(end.db, k) && SameOutcome(end.db.rows[id], o) && OthersStay(v.db, end.db, id)
    && end.fs.dir == v.fs.dir - {k} && end.fs.disk == end.fs.dir && end.p == v.p
    && Saved(v.p.dir, Completion(k, o)) in end.past.cleaned && Completion(k, o) in end.past.confirmed
    && end.past.granted == v.past.granted + [k] && end.past.payloads == v.past.payloads + [Payload(k, v.db.clock + 1)]
  }

  function Built(v: View, id: string, code: int, finished: nat): Completion
    requires id in v.db.rows
  {
    Completion(Claimed(v, id), OutcomeOf(code, false, finished))
  }

  function AfterTask(v: View, id: string, code: int, finished: nat, ino: nat): View
    requires id in v.db.rows
  {
    var c := Built(v, id, code, finished);
    AfterCommit(AfterSave(AfterRun(v, id, code, finished), c, Loop, ino), c, Loop)
  }

  lemma {:induction false} TaskPath(v: View, id: string, code: int, finished: nat, ino: nat)
    requires v.p.pc.Idle? && DbInv(v.db) && id in v.db.rows && v.db.rows[id].status.Pending? && finished != 0
    requires Claimed(v, id) !in v.fs.dir && ino !in v.fs.files
    ensures Goes(v, TaskMoves(id, code, finished, ino), AfterTask(v, id, code, finished, ino))
  {
    var c, run := Built(v, id, code, finished), AfterRun(v, id, code, finished);
    var saved, end := AfterSave(run, c, Loop, ino), AfterTask(v, id, code, finished, ino);
    TaskIsRun(v, id, code, finished);
    OutcomeIsSaved(run, c, Loop, ino);
    OutcomeIsCommitted(saved, c, Loop);
    GoesOn(run, SaveMoves(ino), saved, CommitMoves, end);
    GoesOn(v, RunMoves(id, code, finished), run, SaveMoves(ino) + CommitMoves, end);
  }

  lemma TaskIsDone(v: View, id: string, code: int, finished: nat, ino: nat)
    requires v.p.pc.Idle? && id in v.db.rows && v.db.rows[id].status.Pending?
    ensures TaskDone(v, AfterTask(v, id, code, finished, ino), id, code, finished)
  {
    var k := Claimed(v, id);
    assert (v.fs.dir[k := ino]) - {k} == v.fs.dir - {k};
  }

  /**
    From every state in which a worker is ready to claim, and for every pending task, the protocol has
    a run of that worker that ends with the task's own outcome in its row, every other row as it was,
    the files cleaned up, no record left, and the worker ready again.
  */
  lemma {:induction false} TasksReachTheirEnd(s: State, w: nat, id: string, code: int, finished: nat, ino: nat) returns (end: State)
    requires w in s.procs && s.procs[w].dir in s.disks && s.procs[w].pc.Idle? && DbInv(s.db)
    requires id in s.db.rows && s.db.rows[id].status.Pending? && finished != 0
    requires Claimed(ViewOf(s, w), id) !in s.disks[s.procs[w].dir].dir && ino !in s.disks[s.procs[w].dir].files
    ensures Works(s, w, TaskMoves(id, code, finished, ino), end) && w in end.procs && end.procs[w].dir in end.disks
    ensures TaskDone(ViewOf(s, w), ViewOf(end, w), id, code, finished)
  {
    var v := ViewOf(s, w);
    TaskPath(v, id, code, finished, ino);
    TaskIsDone(v, id, code, finished, ino);
    end := MovesAreSteps(s, w, TaskMoves(id, code, finished, ino), AfterTask(v, id, code, finished, ino));
  }

  // ---------------------------------------------------------------- recovery

  /** For each record: read it, commit it, acknowledge it. */
  function RecoveryMoves(n: nat): seq<Move> {
    if n == 0 then [FinishRecovery] else ([RecoverRecord] + CommitMoves) + RecoveryMoves(n - 1)
  }

  /** These are the names of records that can be read, each once. */
  ghost predicate Readable(fs: Fs, names: seq<Claim>) {
    && (forall i :: 0 <= i < |names| ==> Decode(fs, names[i]).Some?)
    && forall i, j :: 0 <= i < j < |names| ==> names[i] != names[j]
  }

  function Replay(db: Db, fs: Fs, names: seq<Claim>): Db
    requires forall i :: 0 <= i < |names| ==> Decode(fs, names[i]).Some?
    decreases |names|
  {
    if names == [] then db else Replay(DbDo(db, Complete(Decode(fs, names[0]).value)), fs, names[1..])
  }

  lemma OneRecord(v: View, names: seq<Claim>) returns (end: View)
    requires v.p.pc == Recovering(names) && names != [] && Decode(v.fs, names[0]).Some?
    ensures Goes(v, [RecoverRecord] + CommitMoves, end)
    ensures end.p == v.p.(pc := Recovering(names[1..])) && end.db == DbDo(v.db, Complete(Decode(v.fs, names[0]).value))
    ensures end.fs == v.fs.(dir := v.fs.dir - {names[0]}, disk := v.fs.dir - {names[0]})
  {
    var c := Decode(v.fs, names[0]).value;
    var read := Next(v, RecoverRecord);
    OneMove(v, RecoverRecord, read);
    end := AfterCommit(read, c, Recover(names[1..]));
    OutcomeIsCommitted(read, c, Recover(names[1..]));
    GoesOn(v, [RecoverRecord], read, CommitMoves, end);
  }

  lemma ReadableRest(fs: Fs, names: seq<Claim>, fs': Fs)
    requires names != [] && Readable(fs, names) && fs'.files == fs.files && fs'.dir == fs.dir - {names[0]}
    ensures Readable(fs', names[1..]) && forall i :: 1 <= i < |names| ==> Decode(fs', names[i]) == Decode(fs, names[i])
  {
  }

  lemma {:induction false} ReplayIsSame(db: Db, fs: Fs, fs': Fs, names: seq<Claim>)
    requires forall i :: 0 <= i < |names| ==> Decode(fs, names[i]).Some? && Decode(fs', names[i]) == Decode(fs, names[i])
    ensures Replay(db, fs', names) == Replay(db, fs, names)
    decreases |names|
  {
    if names != [] { ReplayIsSame(DbDo(db, Complete(Decode(fs, names[0]).value)), fs, fs', names[1..]); }
  }

  /** The records were committed, in order, and none of them is left behind. */
  ghost predicate RecoveredTo(v: View, names: seq<Claim>, end: View)
    requires Readable(v.fs, names)
  {
    end.p == v.p.(pc := Idle) && end.db == Replay(v.db, v.fs, names) && end.fs.dir.Keys == v.fs.dir.Keys - set k | k in names
  }

  lemma RecoveredFurther(v: View, names: seq<Claim>, middle: View, end: View)
    requires names != [] && Readable(v.fs, names) && Readable(middle.fs, names[1..]) && RecoveredTo(middle, names[1..], end)
    requires middle.p == v.p.(pc := Recovering(names[1..])) && middle.db == DbDo(v.db, Complete(Decode(v.fs, names[0]).value))
    requires middle.fs.dir == v.fs.dir - {names[0]}
    requires forall i :: 1 <= i < |names| ==> Decode(middle.fs, names[i]) == Decode(v.fs, names[i])
    ensures RecoveredTo(v, names, end)
  {
    ReplayIsSame(middle.db, v.fs, middle.fs, names[1..]);
    assert names == [names[0]] + names[1..];
  }

  lemma {:induction false} RecoveryPath(v: View, names: seq<Claim>) returns (end: View)
    requires v.p.pc == Recovering(names) && Readable(v.fs, names)
    ensures Goes(v, RecoveryMoves(|names|), end) && RecoveredTo(v, names, end)
    decreases |names|
  {
    if names == [] {
      end := v.(p := v.p.(pc := Idle));
      NothingToRecover(v, end);
    } else {
      var middle := OneRecord(v, names);
      ReadableRest(v.fs, names, middle.fs);
      end := RecoveryPath(middle, names[1..]);
      RecoveredFurther(v, names, middle, end);
      RecoverFirst(v, middle, end, |names|);
    }
  }

  lemma RecoverFirst(v: View, middle: View, end: View, n: nat)
    requires n > 0 && Goes(v, [RecoverRecord] + CommitMoves, middle) && Goes(middle, RecoveryMoves(n - 1), end)
    ensures Goes(v, RecoveryMoves(n), end)
  {
    GoesOn(v, [RecoverRecord] + CommitMoves, middle, RecoveryMoves(n - 1), end);
  }

  lemma NothingToRecover(v: View, end: View)
    requires v.p.pc == Recovering([]) && end == v.(p := v.p.(pc := Idle))
    ensures Goes(v, RecoveryMoves(0), end)
  {
    assert Moves(v, FinishRecovery, end);
    OneMove(v, FinishRecovery, end);
  }

  lemma {:induction false} ReplayKeepsTerminalRows(db: Db, fs: Fs, names: seq<Claim>, id: string)
    requires forall i :: 0 <= i < |names| ==> Decode(fs, names[i]).Some?
    requires id in db.rows && IsTerminal(db.rows[id].status)
    ensures id in Replay(db, fs, names).rows && Replay(db, fs, names).rows[id] == db.rows[id]
    decreases |names|
  {
    if names != [] { ReplayKeepsTerminalRows(DbDo(db, Complete(Decode(fs, names[0]).value)), fs, names[1..], id); }
  }

  /** Replaying stores, for every claim that is still running, what its record holds. */
  lemma {:induction false} ReplayStores(db: Db, fs: Fs, names: seq<Claim>, i: nat)
    requires Readable(fs, names) && i < |names| && Matches(db, names[i]) && db.rows[names[i].task].status.Running?
    ensures
      var db', o := Replay(db, fs, names), Decode(fs, names[i]).value.outcome;
      Matches(db', names[i]) && SameOutcome(db'.rows[names[i].task], o)
    decreases |names|
  {
    var next := DbDo(db, Complete(Decode(fs, names[0]).value));
    if i == 0 {
      ReplayKeepsTerminalRows(next, fs, names[1..], names[0].task);
    } else {
      assert names[0] != names[i];
      ReplayStores(next, fs, names[1..], i - 1);
    }
  }

  /**
    From every state in which a worker lists its journal, the protocol has a run of that worker after
    which the journal is empty, every running claim has the outcome its record held, and the worker is
    ready to claim.
  */
  lemma {:induction false} RecoveryReachesItsEnd(s: State, w: nat, names: seq<Claim>) returns (end: State)
    requires w in s.procs && s.procs[w].dir in s.disks && s.procs[w].pc.Listing?
    requires FsInv(s.disks[s.procs[w].dir]) && (set k | k in names) == s.disks[s.procs[w].dir].dir.Keys
    requires forall i, j :: 0 <= i < j < |names| ==> names[i] != names[j]
    ensures Works(s, w, [ListRecords(names)] + RecoveryMoves(|names|), end) && w in end.procs && end.procs[w].dir in end.disks
    ensures end.procs[w] == s.procs[w].(pc := Idle) && end.disks[end.procs[w].dir].dir == map[]
    ensures forall k :: k in names && Matches(s.db, k) && s.db.rows[k.task].status.Running? ==>
      && Decode(s.disks[s.procs[w].dir], k).Some?
      && Matches(end.db, k) && SameOutcome(end.db.rows[k.task], Decode(s.disks[s.procs[w].dir], k).value.outcome)
  {
    var v := ViewOf(s, w);
    RecordsAreReadable(v.fs, names);
    var listed := v.(p := v.p.(pc := Recovering(names)));
    assert Moves(v, ListRecords(names), listed);
    var u := RecoveryPath(listed, names);
    assert RecoveredTo(listed, names, u);
    MoveFirst(v, ListRecords(names), listed, RecoveryMoves(|names|), u);
    end := MovesAreSteps(s, w, [ListRecords(names)] + RecoveryMoves(|names|), u);
    forall k | k in names && Matches(s.db, k) && s.db.rows[k.task].status.Running?
      ensures Decode(v.fs, k).Some? && Matches(end.db, k) && SameOutcome(end.db.rows[k.task], Decode(v.fs, k).value.outcome)
    {
      var i :| 0 <= i < |names| && names[i] == k;
      ReplayStores(v.db, v.fs, names, i);
    }
  }

  lemma RecordsAreReadable(fs: Fs, names: seq<Claim>)
    requires FsInv(fs) && (set k | k in names) == fs.dir.Keys
    requires forall i, j :: 0 <= i < j < |names| ==> names[i] != names[j]
    ensures Readable(fs, names)
  {
    forall i | 0 <= i < |names| ensures Decode(fs, names[i]).Some? {
      assert names[i] in set k | k in names;
      assert Sound(fs, fs.dir, names[i]);
    }
  }
}

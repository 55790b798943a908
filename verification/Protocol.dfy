/**
  The completion protocol as a step relation over any number of workers and workdirs.

  A process is at one program point (Pc) of Run, processTask, finishTask, save or
  recoverCompletions.  Each step is one effect on the outside world: one SQL statement, one
  file-system call, or one observed event.  A statement may be applied while its reply is
  lost, a process may be killed anywhere, and a workdir's machine may lose power anywhere.
*/
module Protocol {
  import opened Wrappers
  import opened Tasks
  import opened Journal

  /** Why a run was recorded as cancelled: a database read, or a cancel notification. */
  datatype Evidence = ReadAt(at: nat) | Event

  /** Where a process goes on after a record was acknowledged. */
  datatype Next = Loop | Quit | Recover(rest: seq<Claim>)

  datatype Pc =
    | Down
    | Listing                                                     // recoverCompletions, before pending
    | Recovering(names: seq<Claim>)                               // recoverCompletions, names left
    | Idle                                                        // Run, before claimTask
    | Subscribing(claim: Claim)                                   // processTask, before Add
    | Checking(claim: Claim)                                      // before the pre-execution read
    | Executing(claim: Claim, lastRead: nat)                        // payload started, last successful read
    | Stopping(claim: Claim, read: Option<nat>, why: Evidence)    // wasCancelled is set
    | Creating(completion: Completion, next: Next)                // save, before CreateTemp
    | Encoding(completion: Completion, next: Next, ino: nat)      // before Encode
    | Syncing(completion: Completion, next: Next, ino: nat)       // before file.Sync
    | Linking(completion: Completion, next: Next, ino: nat)       // before Link
    | Clashing(completion: Completion, next: Next, ino: nat)      // Link said ErrExist
    | Publishing(completion: Completion, next: Next)              // before syncDirectory
    | Cleaning(completion: Completion, next: Next)                // save returned, before cleanup
    | Committing(completion: Completion, next: Next)              // saveCompletion's retry loop
    | Removing(completion: Completion, next: Next)                // acknowledge, before Remove
    | Acking(completion: Completion, next: Next)                  // before syncDirectory

  datatype Proc = Proc(name: string, dir: nat, pc: Pc)

  datatype Payload = Payload(claim: Claim, checkedAt: nat)
  datatype Request = Request(task: string, at: nat)
  /** The outcome of one run: its last successful cancellation read and what made it cancelled. */
  datatype Verdict = Verdict(completion: Completion, read: Option<nat>, why: Option<Evidence>)
  datatype Saved = Saved(dir: nat, completion: Completion)

  /** What happened so far; no step reads it. */
  datatype History = History(
    built: set<Completion>, verdicts: set<Verdict>, saved: set<Saved>, cleaned: set<Saved>,
    confirmed: set<Completion>, granted: seq<Claim>, payloads: seq<Payload>, requests: set<Request>)

  datatype State = State(db: Db, disks: map<nat, Fs>, procs: map<nat, Proc>, past: History)

  datatype Note =
    | Silent
    | Built(verdict: Verdict)
    | Submitted(completion: Completion)
    | Returned(dir: nat, completion: Completion)
    | Cleaned(dir: nat, completion: Completion)
    | Confirmed(completion: Completion)
    | Granted(claim: Claim)
    | Started(payload: Payload)
    | Requested(request: Request)

  function Remember(h: History, note: Note): History {
    match note
    case Silent => h
    case Built(v) => h.(verdicts := h.verdicts + {v}, built := h.built + {v.completion})
    case Submitted(c) => h.(built := h.built + {c})
    case Returned(d, c) => h.(saved := h.saved + {Saved(d, c)})
    case Cleaned(d, c) => h.(cleaned := h.cleaned + {Saved(d, c)})
    case Confirmed(c) => h.(confirmed := h.confirmed + {c})
    case Granted(k) => h.(granted := h.granted + [k])
    case Started(p) => h.(payloads := h.payloads + [p])
    case Requested(r) => h.(requests := h.requests + {r})
  }

  /** One statement, one file-system call in one workdir, the processes that move, one note. */
  datatype Effect = Effect(db: DbOp, dir: nat, fs: FsOp, moves: map<nat, Proc>, note: Note)

  function Do(s: State, e: Effect): State
    requires e.dir in s.disks
  {
    State(DbDo(s.db, e.db), s.disks[e.dir := FsDo(s.disks[e.dir], e.fs)], s.procs + e.moves, Remember(s.past, e.note))
  }

  /** What one worker process does next. */
  datatype Move =
    | Start(name: string)
    | Kill
    | Submit(completion: Completion)
    | ListRecords(names: seq<Claim>)
    | RecoverRecord
    | RecordGone
    | FinishRecovery
    | ClaimTask(id: string)
    | ClaimReplyLost(id: string)
    | Subscribe
    | CheckCancel
    | PollCancel
    | CancelEvent
    | Finish(code: int, finished: nat)
    | NewTemp(ino: nat)
    | EncodeRecord
    | SyncRecord
    | LinkRecord
    | ReadClash
    | ClashGone
    | SyncLink
    | CleanUp
    | Commit
    | CommitReplyLost
    | Acknowledge
    | SyncRemoval

  datatype Action =
    | EnqueueTask(id: string, tags: map<string, string>)
    | RequestCancel(id: string)
    | RemoveTask(id: string)
    | LosePower(dir: nat, garbage: map<nat, Option<Completion>>)
    | FlushEntry(dir: nat, record: Claim)
    | Work(w: nat, move: Move)

  /** Decoding a visible record: it must be complete, valid and carry the claim its name says. */
  function Decode(fs: Fs, k: Claim): Option<Completion> {
    if k in fs.dir && fs.dir[k] in fs.files && fs.files[fs.dir[k]].content.Some?
       && Validate(fs.files[fs.dir[k]].content.value) && fs.files[fs.dir[k]].content.value.claim == k
    then fs.files[fs.dir[k]].content else None
  }

  /** The step a worker may take at its program point. */
  predicate WorkerReady(db: Db, pc: Pc, fs: Fs, m: Move) {
    match m
    case Start(name) => pc.Down? && name != ""
    case Kill => true
    case Submit(c) => pc.Down? && Validate(c) && Past(db, c.claim)
    case ListRecords(names) => pc.Listing? && (set k | k in names) == fs.dir.Keys
    case RecoverRecord => pc.Recovering? && |pc.names| > 0 && Decode(fs, pc.names[0]).Some?
    case RecordGone => pc.Recovering? && |pc.names| > 0 && pc.names[0] !in fs.dir
    case FinishRecovery => pc.Recovering? && |pc.names| == 0
    case ClaimTask(id) => pc.Idle? && id in db.rows && db.rows[id].status.Pending?
    case ClaimReplyLost(id) => pc.Idle? && id in db.rows && db.rows[id].status.Pending?
    case Subscribe => pc.Subscribing?
    case CheckCancel => pc.Checking?
    case PollCancel => pc.Executing?
    case CancelEvent => pc.Executing?
    case Finish(code, finished) =>
      finished != 0 && (((pc.Subscribing? || pc.Checking?) && code == -1) || pc.Executing? || pc.Stopping?)
    case NewTemp(ino) => pc.Creating? && ino !in fs.files
    case EncodeRecord => pc.Encoding?
    case SyncRecord => pc.Syncing?
    case LinkRecord => pc.Linking?
    case ReadClash => pc.Clashing? && Decode(fs, pc.completion.claim).Some?
    case ClashGone => pc.Clashing? && pc.completion.claim !in fs.dir
    case SyncLink => pc.Publishing?
    case CleanUp => pc.Cleaning?
    case Commit => pc.Committing?
    case CommitReplyLost => pc.Committing?
    case Acknowledge => pc.Removing?
    case SyncRemoval => pc.Acking?
  }

  predicate Enabled(s: State, a: Action) {
    match a
    case EnqueueTask(id, _) => ValidTaskId(id) && s.disks.Keys != {}
    case RequestCancel(_) => s.disks.Keys != {}
    case RemoveTask(_) => s.disks.Keys != {}
    case LosePower(dir, _) => dir in s.disks
    case FlushEntry(dir, _) => dir in s.disks
    case Work(w, m) => w in s.procs && s.procs[w].dir in s.disks && WorkerReady(s.db, s.procs[w].pc, s.disks[s.procs[w].dir], m)
  }

  function After(next: Next): Pc {
    match next
    case Loop => Idle
    case Quit => Down
    case Recover(rest) => Recovering(rest)
  }

  /** The verdict finishTask builds at the end of a run. */
  function VerdictOf(pc: Pc, code: int, finished: nat): Verdict
    requires pc.Subscribing? || pc.Checking? || pc.Executing? || pc.Stopping?
  {
    match pc
    case Executing(k, read) => Verdict(Completion(k, OutcomeOf(code, false, finished)), Some(read), None)
    case Stopping(k, read, why) => Verdict(Completion(k, OutcomeOf(code, true, finished)), read, Some(why))
    case _ => Verdict(Completion(pc.claim, OutcomeOf(code, false, finished)), None, None)
  }

  /** What a successful CancelRequested read makes of a run. */
  function AfterRead(db: Db, k: Claim): Pc {
    if CancelRequested(db, k.task) then Stopping(k, Some(db.clock), ReadAt(db.clock)) else Executing(k, db.clock)
  }

  datatype Turn = Turn(db: DbOp, fs: FsOp, pc: Pc, note: Note)

  function TurnOf(db: Db, p: Proc, fs: Fs, m: Move): Turn
    requires WorkerReady(db, p.pc, fs, m)
  {
    var pc := p.pc;
    match m
    case Start(_) => Turn(Nothing, Quiet, Listing, Silent)
    case Kill => Turn(Nothing, Quiet, Down, Silent)
    case Submit(c) => Turn(Nothing, Quiet, Creating(c, Quit), Submitted(c))
    case ListRecords(names) => Turn(Nothing, Quiet, Recovering(names), Silent)
    case RecoverRecord =>
      Turn(Nothing, Quiet, Committing(Decode(fs, pc.names[0]).value, Recover(pc.names[1..])), Silent)
    case RecordGone => Turn(Nothing, Quiet, Recovering(pc.names[1..]), Silent)
    case FinishRecovery => Turn(Nothing, Quiet, Idle, Silent)
    case ClaimTask(id) =>
      var k := GrantedClaim(db, id, p.name);
      Turn(Grant(id, p.name), Quiet, Subscribing(k), Granted(k))
    case ClaimReplyLost(id) => Turn(Grant(id, p.name), Quiet, Idle, Silent)
    case Subscribe => Turn(Nothing, Quiet, Checking(pc.claim), Silent)
    case CheckCancel =>
      Turn(Nothing, Quiet, AfterRead(db, pc.claim),
           if CancelRequested(db, pc.claim.task) then Silent else Started(Payload(pc.claim, db.clock)))
    case PollCancel => Turn(Nothing, Quiet, AfterRead(db, pc.claim), Silent)
    case CancelEvent => Turn(Nothing, Quiet, Stopping(pc.claim, Some(pc.lastRead), Event), Silent)
    case Finish(code, finished) =>
      var v := VerdictOf(pc, code, finished);
      Turn(Nothing, Quiet, Creating(v.completion, Loop), Built(v))
    case NewTemp(ino) => Turn(Nothing, CreateTemp(ino), Encoding(pc.completion, pc.next, ino), Silent)
    case EncodeRecord => Turn(Nothing, Encode(pc.ino, pc.completion), Syncing(pc.completion, pc.next, pc.ino), Silent)
    case SyncRecord => Turn(Nothing, SyncFile(pc.ino), Linking(pc.completion, pc.next, pc.ino), Silent)
    case LinkRecord =>
      if pc.completion.claim in fs.dir then Turn(Nothing, Quiet, Clashing(pc.completion, pc.next, pc.ino), Silent)
      else Turn(Nothing, Link(pc.completion.claim, pc.ino), Publishing(pc.completion, pc.next), Silent)
    case ReadClash => Turn(Nothing, Quiet, Publishing(Decode(fs, pc.completion.claim).value, pc.next), Silent)
    case ClashGone => Turn(Nothing, Quiet, Linking(pc.completion, pc.next, pc.ino), Silent)
    case SyncLink => Turn(Nothing, SyncDirectory, Cleaning(pc.completion, pc.next), Returned(p.dir, pc.completion))
    case CleanUp => Turn(Nothing, Quiet, Committing(pc.completion, pc.next), Cleaned(p.dir, pc.completion))
    case Commit =>
      Turn(Complete(pc.completion), Quiet, Removing(pc.completion, pc.next),
           if Confirms(db, pc.completion) then Confirmed(pc.completion) else Silent)
    case CommitReplyLost => Turn(Complete(pc.completion), Quiet, pc, Silent)
    case Acknowledge => Turn(Nothing, Remove(pc.completion.claim), Acking(pc.completion, pc.next), Silent)
    case SyncRemoval => Turn(Nothing, SyncDirectory, After(pc.next), Silent)
  }

  /** Every process whose workdir is on the machine that lost power. */
  function Fallen(s: State, dir: nat): map<nat, Proc> {
    map w | w in s.procs && s.procs[w].dir == dir :: s.procs[w].(pc := Down)
  }

  /** A workdir for steps that touch no file system. */
  ghost function SomeDir(s: State): nat
    requires s.disks.Keys != {}
    ensures SomeDir(s) in s.disks
  {
    var d :| d in s.disks; d
  }

  ghost function EffectOf(s: State, a: Action): Effect
    requires Enabled(s, a)
    ensures EffectOf(s, a).dir in s.disks
  {
    match a
    case EnqueueTask(id, tags) => Effect(Create(id, tags), SomeDir(s), Quiet, map[], Silent)
    case RequestCancel(id) =>
      Effect(Cancel(id), SomeDir(s), Quiet, map[],
             if id in s.db.rows && s.db.rows[id].status.Running? && s.db.rows[id].cancelAt.None?
             then Requested(Request(id, s.db.clock + 1)) else Silent)
    case RemoveTask(id) => Effect(Delete(id), SomeDir(s), Quiet, map[], Silent)
    case LosePower(dir, garbage) => Effect(Nothing, dir, PowerLoss(garbage), Fallen(s, dir), Silent)
    case FlushEntry(dir, k) => Effect(Nothing, dir, Writeback(k), map[], Silent)
    case Work(w, m) =>
      var p := s.procs[w];
      var t := TurnOf(s.db, p, s.disks[p.dir], m);
      Effect(t.db, p.dir, t.fs, map[w := Proc(if m.Start? then m.name else p.name, p.dir, t.pc)], t.note)
  }

  ghost predicate Init(s: State) {
    && s.db.rows == map[]
    && (forall d :: d in s.disks ==> s.disks[d] == Fs(map[], map[], map[]))
    && (forall w :: w in s.procs ==> s.procs[w].pc.Down? && s.procs[w].name != "" && s.procs[w].dir in s.disks)
    && s.past == History({}, {}, {}, {}, {}, [], [], {})
  }

  ghost predicate Step(s: State, s': State) {
    exists a :: Enabled(s, a) && s' == Do(s, EffectOf(s, a))
  }

  /**
    Submit stands for any other writer of the journal: a record of a past claim that no worker of
    this run built.  The workers' own code never does it.
  */
  predicate Own(a: Action) {
    a.Work? ==> !a.move.Submit?
  }

  ghost predicate OwnStep(s: State, s': State) {
    exists a :: Own(a) && Enabled(s, a) && s' == Do(s, EffectOf(s, a))
  }

  ghost predicate OwnStepAt(states: seq<State>, i: nat)
    requires i + 1 < |states|
  {
    OwnStep(states[i], states[i + 1])
  }

  ghost predicate StepAt(states: seq<State>, i: nat)
    requires i + 1 < |states|
  {
    Step(states[i], states[i + 1])
  }

  /** A run in which workers alone write the journal. */
  ghost predicate OwnRun(states: seq<State>) {
    && |states| > 0 && Init(states[0])
    && forall i: nat {:trigger OwnStepAt(states, i)} :: i + 1 < |states| ==> OwnStepAt(states, i)
  }

  /** A run: every state follows from the one before it. */
  ghost predicate Run(states: seq<State>) {
    && |states| > 0 && Init(states[0])
    && forall i: nat {:trigger StepAt(states, i)} :: i + 1 < |states| ==> StepAt(states, i)
  }
}

/** Every step of the protocol is justified, so the invariant holds in every reachable state. */
module Steps {
  import opened Wrappers
  import opened Tasks
  import opened Journal
  import opened Protocol
  import opened Invariant

  /** What one worker sees: the database, its own workdir and the history. */
  ghost predicate Locals(db: Db, fs: Fs, h: History) {
    && DbInv(db) && BuiltOk(db, h) && FsInv(fs) && FilesOk(fs, h)
    && (forall k :: k in h.granted ==> GoodClaim(db, k) && Taken(db, k))
    && (forall i :: 0 <= i < |h.payloads| ==> h.payloads[i].claim in h.granted)
    && (forall id :: id in db.rows && db.rows[id].cancelAt.Some? ==> Request(id, db.rows[id].cancelAt.value) in h.requests)
  }

  function Moved(p: Proc, m: Move, t: Turn): Proc {
    Proc(if m.Start? then m.name else p.name, p.dir, t.pc)
  }

  /** A turn respects everything that no other process can see, and leaves its worker in order. */
  ghost predicate TurnOk(db: Db, fs: Fs, h: History, p: Proc, m: Move)
    requires WorkerReady(db, p.pc, fs, m)
  {
    TurnJustified(db, fs, h, p, m) && TurnKeepsProc(db, fs, h, p, m)
  }

  ghost predicate TurnJustified(db: Db, fs: Fs, h: History, p: Proc, m: Move)
    requires WorkerReady(db, p.pc, fs, m)
  {
    var t := TurnOf(db, p, fs, m);
    && DbJustified(h, t.db)
    && FsJustified(db, fs, h, t.fs)
    && NoteJustified(db, FsDo(fs, t.fs), h, p.dir, t.db, t.note)
  }

  ghost predicate TurnKeepsProc(db: Db, fs: Fs, h: History, p: Proc, m: Move)
    requires WorkerReady(db, p.pc, fs, m)
  {
    var t := TurnOf(db, p, fs, m);
    ProcOk(DbDo(db, t.db), FsDo(fs, t.fs), Remember(h, t.note), Moved(p, m, t))
  }

  lemma DecodedIsBuilt(fs: Fs, h: History, k: Claim)
    requires FsInv(fs) && FilesOk(fs, h) && k in fs.dir
    ensures Decode(fs, k).Some?
    ensures Holds(fs, fs.dir, Decode(fs, k).value)
    ensures Decode(fs, k).value in h.built
    ensures Decode(fs, k).value.claim == k
  {
    assert Sound(fs, fs.dir, k);
  }

  lemma StartIsOk(db: Db, fs: Fs, h: History, p: Proc, m: Move)
    requires Locals(db, fs, h) && ProcOk(db, fs, h, p) && WorkerReady(db, p.pc, fs, m) && m.Start?
    ensures TurnOk(db, fs, h, p, m)
  {
  }

  lemma KillIsOk(db: Db, fs: Fs, h: History, p: Proc, m: Move)
    requires Locals(db, fs, h) && ProcOk(db, fs, h, p) && WorkerReady(db, p.pc, fs, m) && m.Kill?
    ensures TurnOk(db, fs, h, p, m)
  {
  }

  lemma SubmitIsOk(db: Db, fs: Fs, h: History, p: Proc, m: Move)
    requires Locals(db, fs, h) && ProcOk(db, fs, h, p) && WorkerReady(db, p.pc, fs, m) && m.Submit?
    ensures TurnOk(db, fs, h, p, m)
  {
  }

  lemma ListRecordsIsOk(db: Db, fs: Fs, h: History, p: Proc, m: Move)
    requires Locals(db, fs, h) && ProcOk(db, fs, h, p) && WorkerReady(db, p.pc, fs, m) && m.ListRecords?
    ensures TurnOk(db, fs, h, p, m)
  {
  }

  lemma RecordGoneIsOk(db: Db, fs: Fs, h: History, p: Proc, m: Move)
    requires Locals(db, fs, h) && ProcOk(db, fs, h, p) && WorkerReady(db, p.pc, fs, m) && m.RecordGone?
    ensures TurnOk(db, fs, h, p, m)
  {
  }

  lemma FinishRecoveryIsOk(db: Db, fs: Fs, h: History, p: Proc, m: Move)
    requires Locals(db, fs, h) && ProcOk(db, fs, h, p) && WorkerReady(db, p.pc, fs, m) && m.FinishRecovery?
    ensures TurnOk(db, fs, h, p, m)
  {
  }

  lemma RecoverRecordIsOk(db: Db, fs: Fs, h: History, p: Proc, m: Move)
    requires Locals(db, fs, h) && ProcOk(db, fs, h, p) && WorkerReady(db, p.pc, fs, m) && m.RecoverRecord?
    ensures TurnOk(db, fs, h, p, m)
  {
    DecodedIsBuilt(fs, h, p.pc.names[0]);
  }

  lemma ClaimTaskIsOk(db: Db, fs: Fs, h: History, p: Proc, m: Move)
    requires Locals(db, fs, h) && ProcOk(db, fs, h, p) && WorkerReady(db, p.pc, fs, m) && m.ClaimTask?
    ensures TurnOk(db, fs, h, p, m)
  {
  }

  lemma ClaimReplyLostIsOk(db: Db, fs: Fs, h: History, p: Proc, m: Move)
    requires Locals(db, fs, h) && ProcOk(db, fs, h, p) && WorkerReady(db, p.pc, fs, m) && m.ClaimReplyLost?
    ensures TurnOk(db, fs, h, p, m)
  {
  }

  lemma SubscribeIsOk(db: Db, fs: Fs, h: History, p: Proc, m: Move)
    requires Locals(db, fs, h) && ProcOk(db, fs, h, p) && WorkerReady(db, p.pc, fs, m) && m.Subscribe?
    ensures TurnOk(db, fs, h, p, m)
  {
  }

  lemma CheckCancelIsOk(db: Db, fs: Fs, h: History, p: Proc, m: Move)
    requires Locals(db, fs, h) && ProcOk(db, fs, h, p) && WorkerReady(db, p.pc, fs, m) && m.CheckCancel?
    ensures TurnOk(db, fs, h, p, m)
  {
  }

  lemma PollCancelIsOk(db: Db, fs: Fs, h: History, p: Proc, m: Move)
    requires Locals(db, fs, h) && ProcOk(db, fs, h, p) && WorkerReady(db, p.pc, fs, m) && m.PollCancel?
    ensures TurnOk(db, fs, h, p, m)
  {
  }

  lemma CancelEventIsOk(db: Db, fs: Fs, h: History, p: Proc, m: Move)
    requires Locals(db, fs, h) && ProcOk(db, fs, h, p) && WorkerReady(db, p.pc, fs, m) && m.CancelEvent?
    ensures TurnOk(db, fs, h, p, m)
  {
  }

  lemma FinishIsOk(db: Db, fs: Fs, h: History, p: Proc, m: Move)
    requires Locals(db, fs, h) && ProcOk(db, fs, h, p) && WorkerReady(db, p.pc, fs, m) && m.Finish?
    ensures TurnOk(db, fs, h, p, m)
  {
  }

  lemma NewTempIsOk(db: Db, fs: Fs, h: History, p: Proc, m: Move)
    requires Locals(db, fs, h) && ProcOk(db, fs, h, p) && WorkerReady(db, p.pc, fs, m) && m.NewTemp?
    ensures TurnOk(db, fs, h, p, m)
  {
  }

  lemma EncodeRecordIsOk(db: Db, fs: Fs, h: History, p: Proc, m: Move)
    requires Locals(db, fs, h) && ProcOk(db, fs, h, p) && WorkerReady(db, p.pc, fs, m) && m.EncodeRecord?
    ensures TurnOk(db, fs, h, p, m)
  {
  }

  lemma SyncRecordIsOk(db: Db, fs: Fs, h: History, p: Proc, m: Move)
    requires Locals(db, fs, h) && ProcOk(db, fs, h, p) && WorkerReady(db, p.pc, fs, m) && m.SyncRecord?
    ensures TurnOk(db, fs, h, p, m)
  {
  }

  lemma LinkRecordIsJustified(db: Db, fs: Fs, h: History, p: Proc, m: Move)
    requires Locals(db, fs, h) && ProcOk(db, fs, h, p) && WorkerReady(db, p.pc, fs, m) && m.LinkRecord?
    ensures TurnJustified(db, fs, h, p, m)
  {
  }

  lemma LinkRecordKeepsProc(db: Db, fs: Fs, h: History, p: Proc, m: Move)
    requires Locals(db, fs, h) && ProcOk(db, fs, h, p) && WorkerReady(db, p.pc, fs, m) && m.LinkRecord?
    ensures TurnKeepsProc(db, fs, h, p, m)
  {
  }

  lemma LinkRecordIsOk(db: Db, fs: Fs, h: History, p: Proc, m: Move)
    requires Locals(db, fs, h) && ProcOk(db, fs, h, p) && WorkerReady(db, p.pc, fs, m) && m.LinkRecord?
    ensures TurnOk(db, fs, h, p, m)
  {
    LinkRecordIsJustified(db, fs, h, p, m);
    LinkRecordKeepsProc(db, fs, h, p, m);
  }

  lemma ReadClashIsJustified(db: Db, fs: Fs, h: History, p: Proc, m: Move)
    requires Locals(db, fs, h) && ProcOk(db, fs, h, p) && WorkerReady(db, p.pc, fs, m) && m.ReadClash?
    ensures TurnJustified(db, fs, h, p, m)
  {
    DecodedIsBuilt(fs, h, p.pc.completion.claim);
  }

  lemma ReadClashKeepsProc(db: Db, fs: Fs, h: History, p: Proc, m: Move)
    requires Locals(db, fs, h) && ProcOk(db, fs, h, p) && WorkerReady(db, p.pc, fs, m) && m.ReadClash?
    ensures TurnKeepsProc(db, fs, h, p, m)
  {
    DecodedIsBuilt(fs, h, p.pc.completion.claim);
  }

  lemma ReadClashIsOk(db: Db, fs: Fs, h: History, p: Proc, m: Move)
    requires Locals(db, fs, h) && ProcOk(db, fs, h, p) && WorkerReady(db, p.pc, fs, m) && m.ReadClash?
    ensures TurnOk(db, fs, h, p, m)
  {
    ReadClashIsJustified(db, fs, h, p, m);
    ReadClashKeepsProc(db, fs, h, p, m);
  }

  lemma ClashGoneIsOk(db: Db, fs: Fs, h: History, p: Proc, m: Move)
    requires Locals(db, fs, h) && ProcOk(db, fs, h, p) && WorkerReady(db, p.pc, fs, m) && m.ClashGone?
    ensures TurnOk(db, fs, h, p, m)
  {
  }

  lemma SyncLinkIsOk(db: Db, fs: Fs, h: History, p: Proc, m: Move)
    requires Locals(db, fs, h) && ProcOk(db, fs, h, p) && WorkerReady(db, p.pc, fs, m) && m.SyncLink?
    ensures TurnOk(db, fs, h, p, m)
  {
  }

  lemma CleanUpIsOk(db: Db, fs: Fs, h: History, p: Proc, m: Move)
    requires Locals(db, fs, h) && ProcOk(db, fs, h, p) && WorkerReady(db, p.pc, fs, m) && m.CleanUp?
    ensures TurnOk(db, fs, h, p, m)
  {
  }

  lemma CommitIsJustified(db: Db, fs: Fs, h: History, p: Proc, m: Move)
    requires Locals(db, fs, h) && ProcOk(db, fs, h, p) && WorkerReady(db, p.pc, fs, m) && m.Commit?
    ensures TurnJustified(db, fs, h, p, m)
  {
    AnswerSettles(db, p.pc.completion);
  }

  lemma CommitKeepsProc(db: Db, fs: Fs, h: History, p: Proc, m: Move)
    requires Locals(db, fs, h) && ProcOk(db, fs, h, p) && WorkerReady(db, p.pc, fs, m) && m.Commit?
    ensures TurnKeepsProc(db, fs, h, p, m)
  {
    AnswerSettles(db, p.pc.completion);
  }

  lemma CommitIsOk(db: Db, fs: Fs, h: History, p: Proc, m: Move)
    requires Locals(db, fs, h) && ProcOk(db, fs, h, p) && WorkerReady(db, p.pc, fs, m) && m.Commit?
    ensures TurnOk(db, fs, h, p, m)
  {
    CommitIsJustified(db, fs, h, p, m);
    CommitKeepsProc(db, fs, h, p, m);
  }

  lemma CommitReplyLostIsOk(db: Db, fs: Fs, h: History, p: Proc, m: Move)
    requires Locals(db, fs, h) && ProcOk(db, fs, h, p) && WorkerReady(db, p.pc, fs, m) && m.CommitReplyLost?
    ensures TurnOk(db, fs, h, p, m)
  {
  }

  lemma AcknowledgeIsOk(db: Db, fs: Fs, h: History, p: Proc, m: Move)
    requires Locals(db, fs, h) && ProcOk(db, fs, h, p) && WorkerReady(db, p.pc, fs, m) && m.Acknowledge?
    ensures TurnOk(db, fs, h, p, m)
  {
  }

  lemma SyncRemovalIsOk(db: Db, fs: Fs, h: History, p: Proc, m: Move)
    requires Locals(db, fs, h) && ProcOk(db, fs, h, p) && WorkerReady(db, p.pc, fs, m) && m.SyncRemoval?
    ensures TurnOk(db, fs, h, p, m)
  {
  }

  predicate IsRecovering(m: Move) {
    m.ListRecords? || m.RecordGone? || m.FinishRecovery? || m.RecoverRecord?
  }

  predicate IsRunning(m: Move) {
    m.ClaimTask? || m.ClaimReplyLost? || m.Subscribe? || m.CheckCancel? || m.PollCancel? || m.CancelEvent? || m.Finish?
  }

  predicate IsSaving(m: Move) {
    m.NewTemp? || m.EncodeRecord? || m.SyncRecord? || m.LinkRecord? || m.ReadClash? || m.ClashGone? || m.SyncLink?
  }

  lemma RecoveringIsOk(db: Db, fs: Fs, h: History, p: Proc, m: Move)
    requires Locals(db, fs, h) && ProcOk(db, fs, h, p) && WorkerReady(db, p.pc, fs, m) && IsRecovering(m)
    ensures TurnOk(db, fs, h, p, m)
  {
    match m
    case ListRecords(_) => ListRecordsIsOk(db, fs, h, p, m);
    case RecordGone => RecordGoneIsOk(db, fs, h, p, m);
    case FinishRecovery => FinishRecoveryIsOk(db, fs, h, p, m);
    case RecoverRecord => RecoverRecordIsOk(db, fs, h, p, m);
  }

  lemma RunningIsOk(db: Db, fs: Fs, h: History, p: Proc, m: Move)
    requires Locals(db, fs, h) && ProcOk(db, fs, h, p) && WorkerReady(db, p.pc, fs, m) && IsRunning(m)
    ensures TurnOk(db, fs, h, p, m)
  {
    match m
    case ClaimTask(_) => ClaimTaskIsOk(db, fs, h, p, m);
    case ClaimReplyLost(_) => ClaimReplyLostIsOk(db, fs, h, p, m);
    case Subscribe => SubscribeIsOk(db, fs, h, p, m);
    case CheckCancel => CheckCancelIsOk(db, fs, h, p, m);
    case PollCancel => PollCancelIsOk(db, fs, h, p, m);
    case CancelEvent => CancelEventIsOk(db, fs, h, p, m);
    case Finish(_, _) => FinishIsOk(db, fs, h, p, m);
  }

  lemma SavingIsOk(db: Db, fs: Fs, h: History, p: Proc, m: Move)
    requires Locals(db, fs, h) && ProcOk(db, fs, h, p) && WorkerReady(db, p.pc, fs, m) && IsSaving(m)
    ensures TurnOk(db, fs, h, p, m)
  {
    match m
    case NewTemp(_) => NewTempIsOk(db, fs, h, p, m);
    case EncodeRecord => EncodeRecordIsOk(db, fs, h, p, m);
    case SyncRecord => SyncRecordIsOk(db, fs, h, p, m);
    case LinkRecord => LinkRecordIsOk(db, fs, h, p, m);
    case ReadClash => ReadClashIsOk(db, fs, h, p, m);
    case ClashGone => ClashGoneIsOk(db, fs, h, p, m);
    case SyncLink => SyncLinkIsOk(db, fs, h, p, m);
  }

  lemma TurnsAreOk(db: Db, fs: Fs, h: History, p: Proc, m: Move)
    requires Locals(db, fs, h) && ProcOk(db, fs, h, p) && WorkerReady(db, p.pc, fs, m)
    ensures TurnOk(db, fs, h, p, m)
  {
    if IsRecovering(m) { RecoveringIsOk(db, fs, h, p, m); }
    else if IsRunning(m) { RunningIsOk(db, fs, h, p, m); }
    else if IsSaving(m) { SavingIsOk(db, fs, h, p, m); }
    else {
      match m
      case Start(_) => StartIsOk(db, fs, h, p, m);
      case Kill => KillIsOk(db, fs, h, p, m);
      case Submit(_) => SubmitIsOk(db, fs, h, p, m);
      case CleanUp => CleanUpIsOk(db, fs, h, p, m);
      case Commit => CommitIsOk(db, fs, h, p, m);
      case CommitReplyLost => CommitReplyLostIsOk(db, fs, h, p, m);
      case Acknowledge => AcknowledgeIsOk(db, fs, h, p, m);
      case SyncRemoval => SyncRemovalIsOk(db, fs, h, p, m);
    }
  }

  /** A process that takes neither a new file nor a new claim collides with nobody. */
  lemma MoverStaysApart(s: State, w: nat, p: Proc)
    requires Apart(s.procs) && w in s.procs && p.dir == s.procs[w].dir
    requires TempOf(p.pc).None? || TempOf(p.pc) == TempOf(s.procs[w].pc) ||
             (forall v :: v in s.procs && v != w && s.procs[v].dir == p.dir ==> TempOf(s.procs[v].pc) != TempOf(p.pc))
    requires UnstartedOf(p.pc).None? || UnstartedOf(p.pc) == UnstartedOf(s.procs[w].pc) ||
             (forall v :: v in s.procs && v != w && UnstartedOf(s.procs[v].pc).Some? ==>
                !SameIncarnation(UnstartedOf(s.procs[v].pc).value, UnstartedOf(p.pc).value))
    ensures Apart(s.procs + map[w := p])
  {
    var procs := s.procs + map[w := p];
    forall v, u | v in procs && u in procs && v != u
      ensures procs[v].dir == procs[u].dir && TempOf(procs[v].pc).Some? ==> TempOf(procs[v].pc) != TempOf(procs[u].pc)
      ensures UnstartedOf(procs[v].pc).Some? && UnstartedOf(procs[u].pc).Some? ==>
          !SameIncarnation(UnstartedOf(procs[v].pc).value, UnstartedOf(procs[u].pc).value)
    {
    }
  }

  /** A claim just granted is nobody's: every claim handed out earlier names an incarnation that left pending. */
  lemma GrantedClaimIsNew(s: State, id: string, worker: string)
    requires DbInv(s.db) && ProcsOk(s) && GrantsOk(s.db, s.past) && id in s.db.rows && s.db.rows[id].status.Pending?
    ensures forall v :: v in s.procs && UnstartedOf(s.procs[v].pc).Some? ==>
      !SameIncarnation(UnstartedOf(s.procs[v].pc).value, GrantedClaim(s.db, id, worker))
  {
    forall v | v in s.procs && UnstartedOf(s.procs[v].pc).Some?
      ensures !SameIncarnation(UnstartedOf(s.procs[v].pc).value, GrantedClaim(s.db, id, worker))
    {
      assert ProcOk(s.db, s.disks[s.procs[v].dir], s.past, s.procs[v]);
      assert RunningOf(s.procs[v].pc).value in s.past.granted;
    }
  }

  lemma TempFileIsNew(s: State, w: nat, ino: nat)
    requires ProcsOk(s) && w in s.procs && s.procs[w].dir in s.disks && ino !in s.disks[s.procs[w].dir].files
    ensures forall v :: v in s.procs && s.procs[v].dir == s.procs[w].dir ==> TempOf(s.procs[v].pc) != Some(ino)
  {
    forall v | v in s.procs && s.procs[v].dir == s.procs[w].dir ensures TempOf(s.procs[v].pc) != Some(ino) {
      assert ProcOk(s.db, s.disks[s.procs[v].dir], s.past, s.procs[v]);
    }
  }

  /** A turn takes a new file only in save and a new claim only in claimTask, and writes only its own file. */
  lemma TurnShape(db: Db, p: Proc, fs: Fs, m: Move)
    requires WorkerReady(db, p.pc, fs, m)
    ensures
      var t := TurnOf(db, p, fs, m);
      && (TempOf(t.pc).None? || TempOf(t.pc) == TempOf(p.pc) || (m.NewTemp? && TempOf(t.pc) == Some(m.ino)))
      && (UnstartedOf(t.pc).None? || UnstartedOf(t.pc) == UnstartedOf(p.pc) ||
          (m.ClaimTask? && UnstartedOf(t.pc) == Some(GrantedClaim(db, m.id, p.name))))
      && (t.fs.Encode? || t.fs.SyncFile? ==> TempOf(p.pc) == Some(t.fs.ino))
      && (t.note.Started? ==> UnstartedOf(p.pc) == Some(t.note.payload.claim))
      && !t.fs.PowerLoss?
  {
  }

  lemma TurnsStayApart(s: State, w: nat, m: Move)
    requires DbInv(s.db) && ProcsOk(s) && Apart(s.procs) && GrantsOk(s.db, s.past) && Enabled(s, Work(w, m))
    ensures MovesJustified(s, EffectOf(s, Work(w, m)))
  {
    var p := s.procs[w];
    var e := EffectOf(s, Work(w, m));
    var q := Moved(p, m, TurnOf(s.db, p, s.disks[p.dir], m));
    assert e.moves == map[w := q];
    TurnShape(s.db, p, s.disks[p.dir], m);
    if m.ClaimTask? { GrantedClaimIsNew(s, m.id, p.name); }
    if m.NewTemp? { TempFileIsNew(s, w, m.ino); }
    MoverStaysApart(s, w, q);
    OthersKeepTheirs(s, w, e);
  }

  lemma OthersKeepTheirs(s: State, w: nat, e: Effect)
    requires Apart(s.procs) && w in s.procs && w in e.moves && e.dir == s.procs[w].dir
    requires e.fs.Encode? || e.fs.SyncFile? ==> TempOf(s.procs[w].pc) == Some(e.fs.ino)
    requires e.note.Started? ==> UnstartedOf(s.procs[w].pc) == Some(e.note.payload.claim)
    ensures e.fs.Encode? || e.fs.SyncFile? ==>
      forall v :: v in s.procs && s.procs[v].dir == e.dir && v !in e.moves ==> TempOf(s.procs[v].pc) != Some(e.fs.ino)
    ensures e.note.Started? ==>
      forall v :: v in s.procs && v !in e.moves && UnstartedOf(s.procs[v].pc).Some? ==>
        !SameIncarnation(e.note.payload.claim, UnstartedOf(s.procs[v].pc).value)
  {
  }

  lemma WorkIsJustified(s: State, w: nat, m: Move)
    requires Inv(s) && Enabled(s, Work(w, m))
    ensures Justified(s, EffectOf(s, Work(w, m)))
  {
    var p := s.procs[w];
    assert ProcOk(s.db, s.disks[p.dir], s.past, p);
    assert Locals(s.db, s.disks[p.dir], s.past);
    TurnsAreOk(s.db, s.disks[p.dir], s.past, p, m);
    TurnsStayApart(s, w, m);
  }

  lemma DatabaseStepsAreJustified(s: State, a: Action)
    requires Inv(s) && Enabled(s, a) && (a.EnqueueTask? || a.RequestCancel? || a.RemoveTask?)
    ensures Justified(s, EffectOf(s, a))
  {
    assert s.procs + EffectOf(s, a).moves == s.procs;
  }

  lemma FlushIsJustified(s: State, a: Action)
    requires Inv(s) && Enabled(s, a) && a.FlushEntry?
    ensures Justified(s, EffectOf(s, a))
  {
    assert s.procs + EffectOf(s, a).moves == s.procs;
  }

  lemma StoppedStayApart(procs: map<nat, Proc>, stopped: map<nat, Proc>)
    requires Apart(procs) && forall w :: w in stopped ==> w in procs && stopped[w].pc.Down?
    ensures Apart(procs + stopped)
  {
    var all := procs + stopped;
    forall w | w in all ensures all[w] == procs[w] || all[w].pc.Down? {
    }
  }

  lemma FallenMayMove(s: State, a: Action)
    requires Apart(s.procs) && Enabled(s, a) && a.LosePower?
    ensures MovesJustified(s, EffectOf(s, a))
  {
    StoppedStayApart(s.procs, EffectOf(s, a).moves);
  }

  lemma FallenAreOk(s: State, a: Action)
    requires ProcsOk(s) && Enabled(s, a) && a.LosePower?
    ensures MoversOk(s, EffectOf(s, a))
  {
    var e := EffectOf(s, a);
    forall w | w in e.moves ensures e.moves[w].pc.Down? && e.moves[w].dir == e.dir {
    }
  }

  lemma PowerLossIsJustified(s: State, a: Action)
    requires Inv(s) && Enabled(s, a) && a.LosePower?
    ensures Justified(s, EffectOf(s, a))
  {
    FallenMayMove(s, a);
    FallenAreOk(s, a);
  }

  lemma StepsAreJustified(s: State, a: Action)
    requires Inv(s) && Enabled(s, a)
    ensures Justified(s, EffectOf(s, a))
  {
    match a
    case LosePower(_, _) => PowerLossIsJustified(s, a);
    case FlushEntry(_, _) => FlushIsJustified(s, a);
    case Work(w, m) => WorkIsJustified(s, w, m);
    case _ => DatabaseStepsAreJustified(s, a);
  }

  lemma StepKeepsInv(s: State, s': State)
    requires Inv(s) && Step(s, s')
    ensures Inv(s')
  {
    var a :| Enabled(s, a) && s' == Do(s, EffectOf(s, a));
    StepsAreJustified(s, a);
    JustifiedEffectsKeepInv(s, EffectOf(s, a));
  }

  /** The invariant holds in every state of every run. */
  lemma {:induction false} InvAlways(states: seq<State>, i: nat)
    requires Run(states) && i < |states|
    ensures Inv(states[i])
  {
    if i > 0 {
      InvAlways(states, i - 1);
      assert StepAt(states, i - 1);
      StepKeepsInv(states[i - 1], states[i]);
    }
  }
}

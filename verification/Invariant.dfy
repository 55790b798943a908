/**
  What holds in every reachable state, and why every step keeps it.

  The invariant is split by component.  `Justified` collects what a step must respect; the
  lemmas below show that a justified effect keeps each part, and StepsAreJustified shows that
  every step of the protocol is one.
*/
module Invariant {
  import opened Wrappers
  import opened Tasks
  import opened Journal
  import opened Protocol

  function CarriedOf(pc: Pc): Option<Completion> {
    match pc
    case Creating(c, _) => Some(c)
    case Encoding(c, _, _) => Some(c)
    case Syncing(c, _, _) => Some(c)
    case Linking(c, _, _) => Some(c)
    case Clashing(c, _, _) => Some(c)
    case Publishing(c, _) => Some(c)
    case Cleaning(c, _) => Some(c)
    case Committing(c, _) => Some(c)
    case Removing(c, _) => Some(c)
    case Acking(c, _) => Some(c)
    case _ => None
  }

  function TempOf(pc: Pc): Option<nat> {
    match pc
    case Encoding(_, _, i) => Some(i)
    case Syncing(_, _, i) => Some(i)
    case Linking(_, _, i) => Some(i)
    case Clashing(_, _, i) => Some(i)
    case _ => None
  }

  /** The claim whose payload this process may still start. */
  function UnstartedOf(pc: Pc): Option<Claim> {
    match pc
    case Subscribing(k) => Some(k)
    case Checking(k) => Some(k)
    case _ => None
  }

  function RunningOf(pc: Pc): Option<Claim> {
    match pc
    case Subscribing(k) => Some(k)
    case Checking(k) => Some(k)
    case Executing(k, _) => Some(k)
    case Stopping(k, _, _) => Some(k)
    case _ => None
  }

  predicate SameIncarnation(a: Claim, b: Claim) {
    a.task == b.task && a.created == b.created
  }

  /** A durable request on this claim's row can only be younger than `read`. */
  predicate Unseen(db: Db, k: Claim, read: nat) {
    read <= db.clock && (Matches(db, k) && db.rows[k.task].cancelAt.Some? ==> db.rows[k.task].cancelAt.value > read)
  }

  /** The request a read saw is on this claim's row as long as the row is there. */
  predicate Seen(db: Db, k: Claim, at: nat) {
    Matches(db, k) ==> db.rows[k.task].cancelAt.Some? && db.rows[k.task].cancelAt.value <= at
  }

  ghost predicate EvidenceOk(db: Db, h: History, k: Claim, read: Option<nat>, why: Evidence) {
    why.ReadAt? ==>
      && read == Some(why.at) && Seen(db, k, why.at)
      && exists r :: r in h.requests && r.task == k.task && k.started < r.at <= why.at
  }

  predicate GoodClaim(db: Db, k: Claim) {
    ValidTaskId(k.task) && k.worker != "" && 1 <= k.created < k.started <= db.clock
  }

  /** The incarnation named by a claim was handed out: the row of the id is that one, or younger than the claim. */
  predicate Taken(db: Db, k: Claim) {
    k.task in db.rows ==> Matches(db, k) || db.rows[k.task].created > k.started
  }

  // ---------------------------------------------------------------- the parts

  predicate FileOk(fs: Fs, pc: Pc) {
    match pc
    case Encoding(_, _, i) => i in fs.files && !fs.files[i].synced
    case Syncing(c, _, i) => i in fs.files && fs.files[i].content == Some(c)
    case Linking(c, _, i) => i in fs.files && fs.files[i] == File(Some(c), true)
    case Clashing(c, _, i) => i in fs.files && fs.files[i] == File(Some(c), true)
    case _ => true
  }

  /** The journal obligation of a process: what it may rely on at its program point. */
  predicate RecordOk(db: Db, fs: Fs, h: History, dir: nat, pc: Pc) {
    match pc
    case Publishing(c, _) => Settled(db, c.claim) || Holds(fs, fs.dir, c)
    case Cleaning(c, _) => Saved(dir, c) in h.saved
    case Committing(c, next) => next.Recover? || Saved(dir, c) in h.saved
    case Removing(c, _) => Settled(db, c.claim)
    case Acking(c, _) => Settled(db, c.claim)
    case _ => true
  }

  ghost predicate RunOk(db: Db, h: History, pc: Pc) {
    match pc
    case Executing(k, read) => Unseen(db, k, read)
    case Stopping(k, read, why) => EvidenceOk(db, h, k, read, why)
    case _ => true
  }

  ghost predicate ProcOk(db: Db, fs: Fs, h: History, p: Proc) {
    && p.name != ""
    && FileOk(fs, p.pc)
    && RecordOk(db, fs, h, p.dir, p.pc)
    && RunOk(db, h, p.pc)
    && (CarriedOf(p.pc).Some? ==> CarriedOf(p.pc).value in h.built)
    && (RunningOf(p.pc).Some? ==> RunningOf(p.pc).value in h.granted)
    && (UnstartedOf(p.pc).Some? ==>
        forall i :: 0 <= i < |h.payloads| ==> !SameIncarnation(h.payloads[i].claim, UnstartedOf(p.pc).value))
  }

  ghost predicate ProcsOk(s: State) {
    forall w :: w in s.procs ==>
      s.procs[w].dir in s.disks && ProcOk(s.db, s.disks[s.procs[w].dir], s.past, s.procs[w])
  }

  /** No two processes of a workdir write one file, and no two still hold one unstarted claim. */
  ghost predicate Apart(procs: map<nat, Proc>) {
    forall v, w :: v in procs && w in procs && v != w ==>
      && (procs[v].dir == procs[w].dir && TempOf(procs[v].pc).Some? ==> TempOf(procs[v].pc) != TempOf(procs[w].pc))
      && (UnstartedOf(procs[v].pc).Some? && UnstartedOf(procs[w].pc).Some? ==>
          !SameIncarnation(UnstartedOf(procs[v].pc).value, UnstartedOf(procs[w].pc).value))
  }

  ghost predicate BuiltOk(db: Db, h: History) {
    forall c :: c in h.built ==> Validate(c) && Past(db, c.claim)
  }

  ghost predicate FilesOk(fs: Fs, h: History) {
    forall i :: i in fs.files && fs.files[i].synced && fs.files[i].content.Some? ==> fs.files[i].content.value in h.built
  }

  ghost predicate DisksOk(s: State) {
    forall d :: d in s.disks ==> FsInv(s.disks[d]) && FilesOk(s.disks[d], s.past)
  }

  predicate SavedOk(db: Db, fs: Fs, c: Completion) {
    Settled(db, c.claim) || Kept(fs, c)
  }

  /** No saved outcome is lost. */
  ghost predicate NothingLost(s: State) {
    forall x :: x in s.past.saved ==>
      x.dir in s.disks && x.completion in s.past.built && SavedOk(s.db, s.disks[x.dir], x.completion)
  }

  ghost predicate CleanedOk(h: History) {
    h.cleaned <= h.saved
  }

  predicate ConfirmOk(db: Db, c: Completion) {
    Matches(db, c.claim) ==> IsTerminal(db.rows[c.claim.task].status) && SameOutcome(db.rows[c.claim.task], c.outcome)
  }

  ghost predicate ConfirmationsOk(db: Db, h: History) {
    && (forall c :: c in h.confirmed ==> c in h.built && ConfirmOk(db, c))
    && (forall c, c' :: c in h.confirmed && c' in h.confirmed && c.claim == c'.claim ==> c == c')
  }

  /** A terminal claimed row stores an outcome that some process built for exactly its claim. */
  ghost predicate OutcomesOk(db: Db, h: History) {
    forall id :: id in db.rows && db.rows[id].started.Some? && IsTerminal(db.rows[id].status) ==>
      exists c :: c in h.built && c.claim.task == id && Matches(db, c.claim) && SameOutcome(db.rows[id], c.outcome)
  }

  ghost predicate GrantsOk(db: Db, h: History) {
    && (forall i :: 0 <= i < |h.granted| ==> GoodClaim(db, h.granted[i]) && Taken(db, h.granted[i]))
    && (forall i, j :: 0 <= i < j < |h.granted| ==> !SameIncarnation(h.granted[i], h.granted[j]))
  }

  ghost predicate PayloadsOk(db: Db, h: History) {
    && (forall i :: 0 <= i < |h.payloads| ==>
         h.payloads[i].claim in h.granted && Unseen(db, h.payloads[i].claim, h.payloads[i].checkedAt))
    && (forall i, j :: 0 <= i < j < |h.payloads| ==> !SameIncarnation(h.payloads[i].claim, h.payloads[j].claim))
  }

  ghost predicate VerdictOk(db: Db, h: History, v: Verdict) {
    && v.completion in h.built
    && (v.why.Some? <==> v.completion.outcome.status.Cancelled?)
    && (v.why.Some? ==>
         v.completion.outcome.exitCode == -1 && EvidenceOk(db, h, v.completion.claim, v.read, v.why.value))
    && (v.why.None? && v.read.Some? ==> Unseen(db, v.completion.claim, v.read.value))
  }

  ghost predicate CancelsOk(db: Db, h: History) {
    && (forall v :: v in h.verdicts ==> VerdictOk(db, h, v))
    && (forall id :: id in db.rows && db.rows[id].cancelAt.Some? ==> Request(id, db.rows[id].cancelAt.value) in h.requests)
  }

  ghost predicate Inv(s: State) {
    && DbInv(s.db) && ProcsOk(s) && Apart(s.procs) && BuiltOk(s.db, s.past) && DisksOk(s)
    && NothingLost(s) && CleanedOk(s.past) && ConfirmationsOk(s.db, s.past) && OutcomesOk(s.db, s.past)
    && GrantsOk(s.db, s.past) && PayloadsOk(s.db, s.past) && CancelsOk(s.db, s.past)
  }

  // ---------------------------------------------------------------- what a step must respect

  ghost predicate DbJustified(h: History, op: DbOp) {
    match op
    case Create(id, _) => ValidTaskId(id)
    case Complete(c) => c in h.built
    case _ => true
  }

  ghost predicate FsJustified(db: Db, fs: Fs, h: History, op: FsOp) {
    && FsOpOk(fs, op)
    && match op
       case SyncFile(i) => i in fs.files && fs.files[i].content.Some? && fs.files[i].content.value in h.built
       case Remove(k) => Settled(db, k)
       case _ => true
  }

  /** What a note claims about the step that makes it; `fs` is the file system after the step. */
  ghost predicate NoteJustified(db: Db, fs: Fs, h: History, dir: nat, op: DbOp, note: Note) {
    match note
    case Silent => op.Cancel? ==> !(op.id in db.rows && db.rows[op.id].status.Running? && db.rows[op.id].cancelAt.None?)
    case Built(v) => op.Nothing? && Validate(v.completion) && Past(db, v.completion.claim) && VerdictOk(db, Remember(h, note), v)
    case Submitted(c) => op.Nothing? && Validate(c) && Past(db, c.claim)
    case Returned(d, c) => op.Nothing? && d == dir && c in h.built && SavedOk(db, fs, c)
    case Cleaned(d, c) => op.Nothing? && Saved(d, c) in h.saved
    case Confirmed(c) => op == Complete(c) && Confirms(db, c)
    case Granted(k) => op.Grant? && op.id in db.rows && db.rows[op.id].status.Pending?
                       && op.worker != "" && k == GrantedClaim(db, op.id, op.worker)
    case Started(p) => op.Nothing? && p.claim in h.granted && Unseen(db, p.claim, p.checkedAt)
                       && (forall i :: 0 <= i < |h.payloads| ==> !SameIncarnation(h.payloads[i].claim, p.claim))
    case Requested(r) => op == Cancel(r.task) && r.at == db.clock + 1
  }

  /** Steps that change one file, or all of a machine, leave no other process behind unawares. */
  ghost predicate MovesJustified(s: State, e: Effect) {
    && e.moves.Keys <= s.procs.Keys
    && (forall w :: w in e.moves ==> e.moves[w].dir == s.procs[w].dir)
    && (e.fs.PowerLoss? ==> forall w :: w in s.procs && s.procs[w].dir == e.dir ==> w in e.moves)
    && (e.fs.Encode? || e.fs.SyncFile? ==>
        forall w :: w in s.procs && s.procs[w].dir == e.dir && w !in e.moves ==> TempOf(s.procs[w].pc) != Some(e.fs.ino))
    && (e.note.Started? ==>
        forall w :: w in s.procs && w !in e.moves && UnstartedOf(s.procs[w].pc).Some? ==>
          !SameIncarnation(e.note.payload.claim, UnstartedOf(s.procs[w].pc).value))
    && Apart(s.procs + e.moves)
  }

  /** The processes that move find at their new program point what they rely on there. */
  ghost predicate MoversOk(s: State, e: Effect)
    requires e.dir in s.disks
  {
    var s' := Do(s, e);
    forall w :: w in e.moves ==> e.moves[w].dir in s'.disks && ProcOk(s'.db, s'.disks[e.moves[w].dir], s'.past, e.moves[w])
  }

  ghost predicate Justified(s: State, e: Effect) {
    && e.dir in s.disks
    && DbJustified(s.past, e.db)
    && FsJustified(s.db, s.disks[e.dir], s.past, e.fs)
    && NoteJustified(s.db, FsDo(s.disks[e.dir], e.fs), s.past, e.dir, e.db, e.note)
    && MovesJustified(s, e)
    && MoversOk(s, e)
  }

  // ---------------------------------------------------------------- each part is kept

  lemma OpIsOk(s: State, e: Effect)
    requires Inv(s) && Justified(s, e)
    ensures OpOk(e.db)
  {
  }

  lemma KeepsBuilt(s: State, e: Effect)
    requires Inv(s) && Justified(s, e)
    ensures BuiltOk(Do(s, e).db, Do(s, e).past)
  {
    var s' := Do(s, e);
    OpIsOk(s, e);
    forall c | c in s'.past.built ensures Validate(c) && Past(s'.db, c.claim) {
      if c in s.past.built { SettledIsForever(s.db, e.db, c.claim); }
    }
  }

  lemma KeepsDisks(s: State, e: Effect)
    requires Inv(s) && Justified(s, e)
    ensures DisksOk(Do(s, e))
  {
    var s' := Do(s, e);
    JournalStepsKeepRecordsSound(s.disks[e.dir], e.fs);
    var fs, fs' := s.disks[e.dir], s'.disks[e.dir];
    assert FilesOk(fs, s.past);
    forall i | i in fs'.files && fs'.files[i].synced && fs'.files[i].content.Some?
      ensures fs'.files[i].content.value in s'.past.built
    {
    }
    forall d | d in s'.disks ensures FsInv(s'.disks[d]) && FilesOk(s'.disks[d], s'.past) {
      if d != e.dir { assert FilesOk(s.disks[d], s.past); }
    }
  }

  lemma SavedStaysOk(s: State, e: Effect, x: Saved)
    requires Inv(s) && Justified(s, e) && x in s.past.saved
    ensures x.dir in Do(s, e).disks && SavedOk(Do(s, e).db, Do(s, e).disks[x.dir], x.completion)
  {
    var c := x.completion;
    OpIsOk(s, e);
    SettledIsForever(s.db, e.db, c.claim);
    if !Settled(s.db, c.claim) && x.dir == e.dir {
      HeldRecordsStay(s.disks[x.dir], e.fs, c);
    }
  }

  lemma KeepsSaved(s: State, e: Effect)
    requires Inv(s) && Justified(s, e)
    ensures NothingLost(Do(s, e)) && CleanedOk(Do(s, e).past)
  {
    var s' := Do(s, e);
    forall x | x in s'.past.saved
      ensures x.dir in s'.disks && x.completion in s'.past.built && SavedOk(s'.db, s'.disks[x.dir], x.completion)
    {
      if x in s.past.saved { SavedStaysOk(s, e, x); }
    }
  }

  lemma ConfirmStaysOk(s: State, e: Effect, c: Completion)
    requires Inv(s) && Justified(s, e) && c in s.past.confirmed
    ensures ConfirmOk(Do(s, e).db, c)
  {
    OpIsOk(s, e);
    SettledIsForever(s.db, e.db, c.claim);
    if Matches(Do(s, e).db, c.claim) {
      StatementsMoveRowsForward(s.db, e.db, c.claim.task);
    }
  }

  lemma KeepsConfirmations(s: State, e: Effect)
    requires Inv(s) && Justified(s, e)
    ensures ConfirmationsOk(Do(s, e).db, Do(s, e).past)
  {
    var s' := Do(s, e);
    forall c | c in s'.past.confirmed ensures c in s'.past.built && ConfirmOk(s'.db, c) {
      if c in s.past.confirmed { ConfirmStaysOk(s, e, c); }
      else { AnswerSettles(s.db, c); }
    }
    forall c, c' | c in s'.past.confirmed && c' in s'.past.confirmed && c.claim == c'.claim ensures c == c' {
      if c !in s.past.confirmed || c' !in s.past.confirmed {
        var latest := if c in s.past.confirmed then c' else c;
        AnswerSettles(s.db, latest);
        assert ConfirmOk(s'.db, c) && ConfirmOk(s'.db, c');
      }
    }
  }

  lemma KeepsOutcomes(s: State, e: Effect)
    requires Inv(s) && Justified(s, e)
    ensures OutcomesOk(Do(s, e).db, Do(s, e).past)
  {
    var s' := Do(s, e);
    OpIsOk(s, e);
    forall id | id in s'.db.rows && s'.db.rows[id].started.Some? && IsTerminal(s'.db.rows[id].status)
      ensures exists c :: c in s'.past.built && c.claim.task == id && Matches(s'.db, c.claim) && SameOutcome(s'.db.rows[id], c.outcome)
    {
      if id in s.db.rows && s.db.rows[id] == s'.db.rows[id] {
        var c :| c in s.past.built && c.claim.task == id && Matches(s.db, c.claim) && SameOutcome(s.db.rows[id], c.outcome);
        assert c in s'.past.built && Matches(s'.db, c.claim);
      } else {
        assert id in s.db.rows;
        assert e.db.Complete? && e.db.completion.claim.task == id;
        assert e.db.completion in s'.past.built && Matches(s'.db, e.db.completion.claim);
      }
    }
  }

  lemma TakenStays(db: Db, op: DbOp, k: Claim)
    requires DbInv(db) && OpOk(op) && GoodClaim(db, k) && Taken(db, k)
    ensures GoodClaim(DbDo(db, op), k) && Taken(DbDo(db, op), k)
  {
  }

  lemma KeepsGrants(s: State, e: Effect)
    requires Inv(s) && Justified(s, e)
    ensures GrantsOk(Do(s, e).db, Do(s, e).past)
  {
    var s' := Do(s, e);
    OpIsOk(s, e);
    forall i | 0 <= i < |s'.past.granted|
      ensures GoodClaim(s'.db, s'.past.granted[i]) && Taken(s'.db, s'.past.granted[i])
    {
      if i < |s.past.granted| { TakenStays(s.db, e.db, s.past.granted[i]); }
    }
    forall i, j | 0 <= i < j < |s'.past.granted| ensures !SameIncarnation(s'.past.granted[i], s'.past.granted[j]) {
      if j == |s.past.granted| { assert Taken(s.db, s.past.granted[i]); }
    }
  }

  /** Requests are stamped later than every read that did not see them. */
  lemma UnseenStays(db: Db, op: DbOp, k: Claim, read: nat)
    requires DbInv(db) && OpOk(op) && Past(db, k) && Unseen(db, k, read)
    ensures Unseen(DbDo(db, op), k, read)
  {
    SettledIsForever(db, op, k);
    if Matches(DbDo(db, op), k) { StatementsMoveRowsForward(db, op, k.task); }
  }

  lemma KeepsPayloads(s: State, e: Effect)
    requires Inv(s) && Justified(s, e)
    ensures PayloadsOk(Do(s, e).db, Do(s, e).past)
  {
    var s' := Do(s, e);
    OpIsOk(s, e);
    forall i | 0 <= i < |s'.past.payloads|
      ensures s'.past.payloads[i].claim in s'.past.granted
      ensures Unseen(s'.db, s'.past.payloads[i].claim, s'.past.payloads[i].checkedAt)
    {
      if i < |s.past.payloads| {
        var p := s.past.payloads[i];
        assert p.claim in s.past.granted;
        assert GoodClaim(s.db, p.claim);
        UnseenStays(s.db, e.db, p.claim, p.checkedAt);
      }
    }
  }

  lemma SeenStays(db: Db, op: DbOp, k: Claim, at: nat)
    requires DbInv(db) && OpOk(op) && Past(db, k) && Seen(db, k, at)
    ensures Seen(DbDo(db, op), k, at)
  {
    SettledIsForever(db, op, k);
    if Matches(DbDo(db, op), k) { StatementsMoveRowsForward(db, op, k.task); }
  }

  lemma EvidenceStays(db: Db, op: DbOp, h: History, note: Note, k: Claim, read: Option<nat>, why: Evidence)
    requires DbInv(db) && OpOk(op) && Past(db, k) && EvidenceOk(db, h, k, read, why)
    ensures EvidenceOk(DbDo(db, op), Remember(h, note), k, read, why)
  {
    if why.ReadAt? {
      SeenStays(db, op, k, why.at);
      var r :| r in h.requests && r.task == k.task && k.started < r.at <= why.at;
      assert r in Remember(h, note).requests;
    }
  }

  lemma KeepsCancels(s: State, e: Effect)
    requires Inv(s) && Justified(s, e)
    ensures CancelsOk(Do(s, e).db, Do(s, e).past)
  {
    var s' := Do(s, e);
    OpIsOk(s, e);
    forall v | v in s'.past.verdicts ensures VerdictOk(s'.db, s'.past, v) {
      if v in s.past.verdicts {
        assert VerdictOk(s.db, s.past, v);
        if v.why.Some? { EvidenceStays(s.db, e.db, s.past, e.note, v.completion.claim, v.read, v.why.value); }
        else if v.read.Some? { UnseenStays(s.db, e.db, v.completion.claim, v.read.value); }
      }
    }
    forall id | id in s'.db.rows && s'.db.rows[id].cancelAt.Some?
      ensures Request(id, s'.db.rows[id].cancelAt.value) in s'.past.requests
    {
    }
  }

  /** A process that does not move can still rely on what it relied on. */
  lemma BystanderStaysOk(s: State, e: Effect, w: nat)
    requires Inv(s) && Justified(s, e) && w in s.procs && w !in e.moves
    ensures s.procs[w].dir in Do(s, e).disks
    ensures ProcOk(Do(s, e).db, Do(s, e).disks[s.procs[w].dir], Do(s, e).past, s.procs[w])
  {
    var s' := Do(s, e);
    var p := s.procs[w];
    OpIsOk(s, e);
    assert ProcOk(s.db, s.disks[p.dir], s.past, p);
    if CarriedOf(p.pc).Some? { SettledIsForever(s.db, e.db, CarriedOf(p.pc).value.claim); }
    BystanderFiles(s, e, w);
    BystanderRecords(s, e, w);
    BystanderRuns(s, e, w);
  }

  lemma BystanderFiles(s: State, e: Effect, w: nat)
    requires Inv(s) && Justified(s, e) && w in s.procs && w !in e.moves
    ensures FileOk(Do(s, e).disks[s.procs[w].dir], s.procs[w].pc)
  {
    var p := s.procs[w];
    assert ProcOk(s.db, s.disks[p.dir], s.past, p);
    if TempOf(p.pc).Some? && p.dir == e.dir {
      OtherFilesStay(s.disks[e.dir], e.fs, TempOf(p.pc).value);
    }
  }

  /** What a process relies on for its record is there after one statement and one file-system step of others. */
  lemma RecordStaysOk(db: Db, op: DbOp, fs: Fs, fsOp: FsOp, h: History, note: Note, dir: nat, pc: Pc)
    requires RecordOk(db, fs, h, dir, pc) && OpOk(op) && FsInv(fs) && FsOpOk(fs, fsOp) && !fsOp.PowerLoss?
    requires fsOp.Remove? ==> Settled(db, fsOp.name)
    requires CarriedOf(pc).Some? ==> Past(db, CarriedOf(pc).value.claim)
    ensures RecordOk(DbDo(db, op), FsDo(fs, fsOp), Remember(h, note), dir, pc)
  {
    if CarriedOf(pc).Some? {
      var c := CarriedOf(pc).value;
      SettledIsForever(db, op, c.claim);
      if pc.Publishing? && !Settled(db, c.claim) { HeldRecordsStay(fs, fsOp, c); }
    }
  }

  lemma BystanderRecords(s: State, e: Effect, w: nat)
    requires Inv(s) && Justified(s, e) && w in s.procs && w !in e.moves
    ensures RecordOk(Do(s, e).db, Do(s, e).disks[s.procs[w].dir], Do(s, e).past, s.procs[w].dir, s.procs[w].pc)
  {
    var p := s.procs[w];
    OpIsOk(s, e);
    assert ProcOk(s.db, s.disks[p.dir], s.past, p);
    RecordStaysOk(s.db, e.db, s.disks[p.dir], if p.dir == e.dir then e.fs else Quiet, s.past, e.note, p.dir, p.pc);
  }

  lemma BystanderRuns(s: State, e: Effect, w: nat)
    requires Inv(s) && Justified(s, e) && w in s.procs && w !in e.moves
    ensures RunOk(Do(s, e).db, Do(s, e).past, s.procs[w].pc)
    ensures UnstartedOf(s.procs[w].pc).Some? ==>
      forall i :: 0 <= i < |Do(s, e).past.payloads| ==>
        !SameIncarnation(Do(s, e).past.payloads[i].claim, UnstartedOf(s.procs[w].pc).value)
  {
    var p := s.procs[w];
    OpIsOk(s, e);
    assert ProcOk(s.db, s.disks[p.dir], s.past, p);
    if p.pc.Executing? {
      assert p.pc.claim in s.past.granted;
      assert GoodClaim(s.db, p.pc.claim);
      UnseenStays(s.db, e.db, p.pc.claim, p.pc.lastRead);
    }
    if p.pc.Stopping? {
      assert p.pc.claim in s.past.granted;
      assert GoodClaim(s.db, p.pc.claim);
      EvidenceStays(s.db, e.db, s.past, e.note, p.pc.claim, p.pc.read, p.pc.why);
    }
  }

  lemma KeepsProcs(s: State, e: Effect)
    requires Inv(s) && Justified(s, e)
    ensures ProcsOk(Do(s, e))
  {
    var s' := Do(s, e);
    forall w | w in s'.procs
      ensures s'.procs[w].dir in s'.disks && ProcOk(s'.db, s'.disks[s'.procs[w].dir], s'.past, s'.procs[w])
    {
      if w !in e.moves { BystanderStaysOk(s, e, w); }
    }
  }

  lemma JustifiedEffectsKeepInv(s: State, e: Effect)
    requires Inv(s) && Justified(s, e)
    ensures Inv(Do(s, e))
  {
    OpIsOk(s, e);
    StatementsKeepDbInv(s.db, e.db);
    KeepsProcs(s, e); KeepsBuilt(s, e); KeepsDisks(s, e); KeepsSaved(s, e); KeepsConfirmations(s, e);
    KeepsOutcomes(s, e); KeepsGrants(s, e); KeepsPayloads(s, e); KeepsCancels(s, e);
  }
}

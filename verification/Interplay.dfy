/**
  What others may do between two calls of a worker, what its calls then meet, and what it does itself.

  Other processes are trusted to keep the protocol's rules: a step that would break one is not
  taken.  The state machine in Protocol shows that workers do keep them.
*/
module Interplay {
  import opened Wrappers
  import opened Tasks
  import opened Journal
  import TaskTable

  datatype Other = Other(db: DbOp, fs: FsOp)

  /** What happens to one of our calls: it works, fails and may be retried, is applied without a reply, or fails for good. */
  datatype Reply = Works | Fails | ReplyLost | FailsForGood

  /** What others do before one of our calls, and how the call ends. */
  datatype Call = Call(others: seq<Other>, reply: Reply)

  /** The rules for others: records are removed only when settled, and no one touches our temporary file. */
  predicate Fair(db: Db, fs: Fs, o: Other, ours: Option<nat>) {
    && OpOk(o.db) && FsOpOk(fs, o.fs) && !o.fs.PowerLoss?
    && (o.fs.Remove? ==> Settled(db, o.fs.name))
    && (o.fs.Link? ==> Past(db, o.fs.name))
    && (ours.Some? && (o.fs.Encode? || o.fs.SyncFile?) ==> o.fs.ino != ours.value)
  }

  function Act(db: Db, fs: Fs, o: Other, ours: Option<nat>): (Db, Fs) {
    if Fair(db, fs, o, ours) then (DbDo(db, o.db), FsDo(fs, o.fs)) else (db, fs)
  }

  function ActAll(db: Db, fs: Fs, os: seq<Other>, ours: Option<nat>): (Db, Fs)
    decreases |os|
  {
    if os == [] then (db, fs)
    else
      var next := Act(db, fs, os[0], ours);
      ActAll(next.0, next.1, os[1..], ours)
  }

  /** Every step that keeps the rules may happen, in any order, and nothing else. */
  lemma {:induction false} StepsInTurn(db: Db, fs: Fs, os: seq<Other>, more: seq<Other>, ours: Option<nat>)
    ensures
      var middle := ActAll(db, fs, os, ours);
      ActAll(db, fs, os + more, ours) == ActAll(middle.0, middle.1, more, ours)
    ensures forall o: Other :: o.db.Nothing? && o.fs.Quiet? ==> ActAll(db, fs, [o], ours) == (db, fs)
    ensures forall o: Other :: Fair(db, fs, o, ours) ==> ActAll(db, fs, [o], ours) == (DbDo(db, o.db), FsDo(fs, o.fs))
    decreases |os|
  {
    if os == [] {
      assert os + more == more;
    } else {
      var next := Act(db, fs, os[0], ours);
      StepsInTurn(next.0, next.1, os[1..], more, ours);
      assert (os + more)[1..] == os[1..] + more;
    }
  }

  /** The journal holds records of past claims only, in either layer. */
  ghost predicate World(db: Db, fs: Fs) {
    && DbInv(db) && FsInv(fs)
    && (forall k :: k in fs.dir ==> Past(db, k))
    && (forall k :: k in fs.disk ==> Past(db, k))
  }

  /** An outcome that cannot be lost any more: recorded durably, or not needed. */
  predicate Guarded(db: Db, fs: Fs, c: Completion) {
    Past(db, c.claim) && (Settled(db, c.claim) || Kept(fs, c))
  }

  /** As Guarded, before the directory is synced. */
  predicate Linked(db: Db, fs: Fs, c: Completion) {
    Past(db, c.claim) && (Settled(db, c.claim) || Holds(fs, fs.dir, c))
  }

  /** A claim with a record, or with nothing left to record. */
  predicate Covered(db: Db, fs: Fs, k: Claim) {
    Past(db, k) && (Settled(db, k) || k in fs.dir)
  }

  /** A claim that was issued and is settled. */
  predicate Over(db: Db, k: Claim) {
    Past(db, k) && Settled(db, k)
  }

  /** A claim whose row is gone, or never was. */
  predicate Gone(db: Db, k: Claim) {
    Past(db, k) && !Matches(db, k)
  }

  /** A cancellation was requested for this claim, or its row is gone. */
  predicate Called(db: Db, k: Claim) {
    Past(db, k) && (Matches(db, k) ==> db.rows[k.task].cancelAt.Some?)
  }

  /** Covered claims stay covered, and settled claims stay settled. */
  ghost predicate Progress(db: Db, fs: Fs, db': Db, fs': Fs) {
    && (forall k: Claim :: Covered(db, fs, k) ==> Covered(db', fs', k))
    && (forall k: Claim :: Over(db, k) ==> Over(db', k))
  }

  lemma ProgressGoesOn(db: Db, fs: Fs, middle: Db, journal: Fs, db': Db, fs': Fs)
    requires Progress(db, fs, middle, journal) && Progress(middle, journal, db', fs')
    ensures Progress(db, fs, db', fs')
  {
  }

  predicate SameFile(fs: Fs, fs': Fs, i: nat) {
    i in fs.files ==> i in fs'.files && fs'.files[i] == fs.files[i]
  }

  /** What any steps of others leave us: nothing settled, guarded or linked is undone, nor our file touched. */
  ghost predicate Later(db: Db, fs: Fs, db': Db, fs': Fs, ours: Option<nat>) {
    && World(db', fs')
    && (forall c: Completion :: Guarded(db, fs, c) ==> Guarded(db', fs', c))
    && (forall c: Completion :: Linked(db, fs, c) ==> Linked(db', fs', c))
    && (forall k: Claim :: Past(db, k) ==> Past(db', k))
    && (forall k: Claim :: Gone(db, k) ==> Gone(db', k))
    && (forall k: Claim :: Called(db, k) ==> Called(db', k))
    && Progress(db, fs, db', fs')
    && (ours.Some? ==> SameFile(fs, fs', ours.value))
  }

  /** Every name either was there before, in one of the layers, or is being linked. */
  lemma NamesComeFromBefore(fs: Fs, op: FsOp, k: Claim)
    requires !op.PowerLoss?
    ensures k in FsDo(fs, op).dir ==> k in fs.dir || (op.Link? && op.name == k)
    ensures k in FsDo(fs, op).disk ==> k in fs.dir || k in fs.disk
  {
  }

  lemma WorldStays(db: Db, fs: Fs, o: Other, ours: Option<nat>)
    requires World(db, fs) && Fair(db, fs, o, ours)
    ensures World(DbDo(db, o.db), FsDo(fs, o.fs))
  {
    StatementsKeepDbInv(db, o.db);
    JournalStepsKeepRecordsSound(fs, o.fs);
    forall k: Claim | k in FsDo(fs, o.fs).dir || k in FsDo(fs, o.fs).disk ensures Past(DbDo(db, o.db), k) {
      NamesComeFromBefore(fs, o.fs, k);
      SettledIsForever(db, o.db, k);
    }
  }

  lemma GuardsStay(db: Db, fs: Fs, o: Other, ours: Option<nat>, c: Completion)
    requires World(db, fs) && Fair(db, fs, o, ours)
    ensures Guarded(db, fs, c) ==> Guarded(DbDo(db, o.db), FsDo(fs, o.fs), c)
    ensures Linked(db, fs, c) ==> Linked(DbDo(db, o.db), FsDo(fs, o.fs), c)
  {
    if Past(db, c.claim) {
      SettledIsForever(db, o.db, c.claim);
      if !Settled(db, c.claim) { HeldRecordsStay(fs, o.fs, c); }
    }
  }

  lemma CoverStays(db: Db, fs: Fs, o: Other, ours: Option<nat>, k: Claim)
    requires World(db, fs) && Fair(db, fs, o, ours)
    ensures Covered(db, fs, k) ==> Covered(DbDo(db, o.db), FsDo(fs, o.fs), k)
    ensures Past(db, k) && Settled(db, k) ==> Settled(DbDo(db, o.db), k)
    ensures Past(db, k) ==> Past(DbDo(db, o.db), k)
  {
    if Past(db, k) { SettledIsForever(db, o.db, k); }
  }

  lemma RequestStays(db: Db, op: DbOp, k: Claim)
    requires DbInv(db) && OpOk(op)
    ensures Gone(db, k) ==> Gone(DbDo(db, op), k)
    ensures Called(db, k) ==> Called(DbDo(db, op), k)
  {
    if Past(db, k) {
      SettledIsForever(db, op, k);
      if Matches(db, k) && Matches(DbDo(db, op), k) { StatementsMoveRowsForward(db, op, k.task); }
    }
  }

  lemma OneActIsSafe(db: Db, fs: Fs, o: Other, ours: Option<nat>)
    requires World(db, fs) && Fair(db, fs, o, ours)
    ensures Later(db, fs, DbDo(db, o.db), FsDo(fs, o.fs), ours)
  {
    WorldStays(db, fs, o, ours);
    forall k: Claim
      ensures Covered(db, fs, k) ==> Covered(DbDo(db, o.db), FsDo(fs, o.fs), k)
      ensures Past(db, k) && Settled(db, k) ==> Settled(DbDo(db, o.db), k)
      ensures Past(db, k) ==> Past(DbDo(db, o.db), k)
      ensures Gone(db, k) ==> Gone(DbDo(db, o.db), k)
      ensures Called(db, k) ==> Called(DbDo(db, o.db), k)
    {
      CoverStays(db, fs, o, ours, k);
      RequestStays(db, o.db, k);
    }
    forall c: Completion
      ensures Guarded(db, fs, c) ==> Guarded(DbDo(db, o.db), FsDo(fs, o.fs), c)
      ensures Linked(db, fs, c) ==> Linked(DbDo(db, o.db), FsDo(fs, o.fs), c)
    {
      GuardsStay(db, fs, o, ours, c);
    }
    if ours.Some? && ours.value in fs.files { OtherFilesStay(fs, o.fs, ours.value); }
  }

  lemma {:induction false} OthersAreSafe(db: Db, fs: Fs, os: seq<Other>, ours: Option<nat>)
    requires World(db, fs)
    ensures Later(db, fs, ActAll(db, fs, os, ours).0, ActAll(db, fs, os, ours).1, ours)
    decreases |os|
  {
    if os != [] {
      if Fair(db, fs, os[0], ours) { OneActIsSafe(db, fs, os[0], ours); }
      var next := Act(db, fs, os[0], ours);
      OthersAreSafe(next.0, next.1, os[1..], ours);
    }
  }

  /** The claim's row is still running. */
  predicate Open(db: Db, k: Claim) {
    Matches(db, k) && db.rows[k.task].status.Running?
  }

  predicate Stored(db: Db, k: Claim, o: Outcome) {
    Matches(db, k) && SameOutcome(db.rows[k.task], o)
  }

  predicate Alone(script: seq<Call>) {
    forall i :: 0 <= i < |script| ==> script[i].others == []
  }

  /** Every call works, whatever others do. */
  predicate Reliable(script: seq<Call>) {
    forall i :: 0 <= i < |script| ==> script[i].reply.Works?
  }

  /** Nobody else acts, and every call works. */
  predicate Smooth(script: seq<Call>) {
    Alone(script) && Reliable(script)
  }

  const SOME_OUTCOME := Outcome(Failed, 1, 1)

  /** What processTask's select sees next while the payload runs. */
  datatype Wait = PayloadEnds | Notified(cancel: bool) | EventsClosed | PollTick | ShuttingDown

  /** A task's run: whether the subscription works, what is seen while it runs, how the payload ends, and when. */
  datatype Job = Job(subscribed: bool, waits: seq<Wait>, code: int, finished: nat)

  /** The run ends by a cancel event rather than by anything else. */
  predicate EventCancels(waits: seq<Wait>) {
    if waits == [] || waits[0] in {PayloadEnds, EventsClosed, ShuttingDown} then false
    else waits[0] == Notified(true) || EventCancels(waits[1..])
  }

  datatype Error = Invalid | Io | Database

  /** One thing that happened to the database and the journal: what others did before a call of ours, or our own step. */
  datatype Event = Theirs(os: seq<Other>, ours: Option<nat>) | Mine(op: Other, answered: bool)

  /** All events in order, each with the database and the journal it found. */
  datatype Story = Begin | Then(before: Story, db: Db, fs: Fs, event: Event)

  function After(db: Db, fs: Fs, e: Event): (Db, Fs) {
    match e
    case Theirs(os, ours) => ActAll(db, fs, os, ours)
    case Mine(op, _) => (DbDo(db, op.db), FsDo(fs, op.fs))
  }

  /** The story leads from one state to the other. */
  predicate Tells(story: Story, from: (Db, Fs), db: Db, fs: Fs) {
    match story
    case Begin => (db, fs) == from
    case Then(before, db', fs', e) => Tells(before, from, db', fs') && (db, fs) == After(db', fs', e)
  }

  /** A claim of ours: the journal's names when it was issued, the claim, and whether its reply arrived. */
  datatype Issue = Issue(names: set<Claim>, claim: Claim, answered: bool)

  /** What we did to the outside: claims issued, records linked, outcomes sent to the database. */
  datatype Deeds = Deeds(claims: seq<Issue>, records: seq<Completion>, sent: seq<Completion>)

  function Done(d: Deeds, db: Db, fs: Fs, op: Other, answered: bool): Deeds {
    if op.db.Grant? && op.db.id in db.rows && db.rows[op.db.id].status.Pending? then
      d.(claims := d.claims + [Issue(fs.dir.Keys, GrantedClaim(db, op.db.id, op.db.worker), answered)])
    else if op.fs.Link? && op.fs.name !in fs.dir && op.fs.ino in fs.files && fs.files[op.fs.ino].content.Some? then
      d.(records := d.records + [fs.files[op.fs.ino].content.value])
    else if op.db.Complete? then d.(sent := d.sent + [op.db.completion])
    else d
  }

  function DeedsIn(story: Story): Deeds {
    match story
    case Begin => Deeds([], [], [])
    case Then(before, _, _, Theirs(_, _)) => DeedsIn(before)
    case Then(before, db, fs, Mine(op, answered)) => Done(DeedsIn(before), db, fs, op, answered)
  }

  /** At some point of the story the journal held this very record. */
  predicate Shown(story: Story, c: Completion) {
    match story
    case Begin => false
    case Then(before, _, fs, _) => Holds(fs, fs.dir, c) || Shown(before, c)
  }

  /** Whatever we sent to the database as an outcome had been in the journal before. */
  predicate FromTheJournal(story: Story) {
    match story
    case Begin => true
    case Then(before, _, _, e) => FromTheJournal(before) && (e.Mine? && e.op.db.Complete? ==> Shown(story, e.op.db.completion))
  }

  /** The states an event of the story found, in order, and the events. */
  function States(story: Story): seq<(Db, Fs)> {
    match story case Begin => [] case Then(before, db, fs, _) => States(before) + [(db, fs)]
  }

  function Events(story: Story): (r: seq<Event>)
    ensures |r| == |States(story)|
  {
    match story case Begin => [] case Then(before, _, _, e) => Events(before) + [e]
  }

  /** The i-th event leads from the i-th state to the next. */
  predicate LeadsOn(states: seq<(Db, Fs)>, events: seq<Event>, i: nat) {
    i < |events| && i + 1 < |states| && states[i + 1] == After(states[i].0, states[i].1, events[i])
  }

  /** A story is told exactly when each event leads from the state it found to the next, from the first to the last. */
  lemma {:induction false} ToldInOrder(story: Story, from: (Db, Fs), db: Db, fs: Fs)
    ensures
      var all := States(story) + [(db, fs)];
      Tells(story, from, db, fs) <==> all[0] == from && forall i: nat :: i < |Events(story)| ==> LeadsOn(all, Events(story), i)
  {
    match story
    case Begin =>
    case Then(before, db', fs', e) =>
      ToldInOrder(before, from, db', fs');
      var all, earlier, n := States(story) + [(db, fs)], States(before) + [(db', fs')], |Events(before)|;
      assert all == earlier + [(db, fs)];
      assert LeadsOn(all, Events(story), n) <==> (db, fs) == After(db', fs', e);
      forall i: nat | i < n ensures LeadsOn(all, Events(story), i) <==> LeadsOn(earlier, Events(before), i) {
        assert Events(story)[i] == Events(before)[i];
      }
  }

  /** Shown means held by the journal some event found. */
  lemma {:induction false} ShownWasHeld(story: Story, c: Completion)
    ensures Shown(story, c) <==> exists s :: s in States(story) && Holds(s.1, s.1.dir, c)
  {
    match story
    case Begin =>
    case Then(before, db, fs, _) =>
      ShownWasHeld(before, c);
      assert (db, fs) in States(story);
  }

  /** Whatever we sent as an outcome, some journal had held before. */
  lemma {:induction false} SentWasHeld(story: Story, c: Completion)
    requires FromTheJournal(story) && c in DeedsIn(story).sent
    ensures exists s :: s in States(story) && Holds(s.1, s.1.dir, c)
  {
    match story
    case Then(before, db, fs, e) =>
      if c in DeedsIn(before).sent { SentWasHeld(before, c); } else { ShownWasHeld(story, c); }
      assert forall s :: s in States(before) ==> s in States(story);
  }

  /** At most this one was added. */
  predicate AtMost<T(==)>(before: seq<T>, after: seq<T>, x: T) {
    after == before || after == before + [x]
  }

  /** Nothing else was added. */
  predicate Only<T(==)>(before: seq<T>, after: seq<T>, x: T) {
    |before| <= |after| && after[..|before|] == before && forall i :: |before| <= i < |after| ==> after[i] == x
  }

  // ---------------------------------------------------------------- what the calls to come will meet

  /** The database and the journal when our next call takes effect. */
  function Met(db: Db, fs: Fs, script: seq<Call>, ours: Option<nat>): (Db, Fs) {
    if script == [] then (db, fs) else ActAll(db, fs, script[0].others, ours)
  }

  function ReplyOf(script: seq<Call>): Reply {
    if script == [] then Works else script[0].reply
  }

  function Rest(script: seq<Call>): seq<Call> {
    if script == [] then [] else script[1..]
  }

  /** The next calls all work. */
  predicate AllWork(script: seq<Call>, calls: nat) {
    forall i :: 0 <= i < |script| && i < calls ==> script[i].reply.Works?
  }

  lemma CallsInTurn(script: seq<Call>, calls: nat)
    ensures AllWork(script, 0)
    ensures AllWork(script, calls + 1) <==> ReplyOf(script).Works? && AllWork(Rest(script), calls)
  {
    if script != [] && ReplyOf(script).Works? && AllWork(Rest(script), calls) {
      forall i | 0 <= i < |script| && i < calls + 1 ensures script[i].reply.Works? {
        if i > 0 { assert Rest(script)[i - 1].reply.Works?; }
      }
    }
  }

  lemma TwoCalls(script: seq<Call>)
    ensures AllWork(script, 2) <==> ReplyOf(script).Works? && ReplyOf(Rest(script)).Works?
  {
    CallsInTurn(script, 1);
    CallsInTurn(Rest(script), 0);
  }

  /** What a read of the durable request answers, if it does, and what it leaves. */
  datatype Reading = Reading(answer: Option<bool>, db: Db, fs: Fs, script: seq<Call>)

  function OneReading(db: Db, fs: Fs, script: seq<Call>, task: string): Reading {
    var met := Met(db, fs, script, None);
    Reading(if ReplyOf(script).Works? then Some(CancelRequested(met.0, task)) else None, met.0, met.1, Rest(script))
  }

  /** The read before the payload starts is tried again until it is answered or fails for good. */
  function FirstReading(db: Db, fs: Fs, script: seq<Call>, task: string): Reading
    decreases |script|
  {
    var one := OneReading(db, fs, script, task);
    if one.answer.Some? || ReplyOf(script).FailsForGood? then one else FirstReading(one.db, one.fs, one.script, task)
  }

  /** That read gets an answer. */
  predicate Answered(script: seq<Call>)
    decreases |script|
  {
    ReplyOf(script).Works? || (!ReplyOf(script).FailsForGood? && Answered(Rest(script)))
  }

  /** The select loop ends the run as cancelled: a cancel event comes, or a poll sees the request. */
  function Stops(db: Db, fs: Fs, script: seq<Call>, waits: seq<Wait>, task: string): bool
    decreases |waits|
  {
    if waits == [] || waits[0] in {PayloadEnds, EventsClosed, ShuttingDown} then false
    else if waits[0].Notified? then waits[0].cancel || Stops(db, fs, script, waits[1..], task)
    else
      var one := OneReading(db, fs, script, task);
      one.answer == Some(true) || Stops(one.db, one.fs, one.script, waits[1..], task)
  }

  /** What processTask builds for a claim. */
  function Built(job: Job, db: Db, fs: Fs, script: seq<Call>, task: string): Outcome {
    if !job.subscribed then OutcomeOf(-1, false, job.finished)
    else
      var first := FirstReading(db, fs, script, task);
      match first.answer
      case None => OutcomeOf(-1, false, job.finished)
      case Some(true) => OutcomeOf(-1, true, job.finished)
      case Some(false) => OutcomeOf(job.code, Stops(first.db, first.fs, first.script, job.waits, task), job.finished)
  }

  /** What a claim statement hands out, if it does, and the table after it. */
  function Picked(db: Db, name: string, pick: Db -> Option<string>): Option<Claim> {
    var id := pick(db);
    if id.Some? && id.value in db.rows && db.rows[id.value].status.Pending? then Some(GrantedClaim(db, id.value, name)) else None
  }

  function AfterPick(db: Db, name: string, pick: Db -> Option<string>): Db {
    if Picked(db, name, pick).Some? then DbDo(db, Grant(Picked(db, name, pick).value.task, name)) else db
  }

  datatype Claiming = Claiming(r: Result<Option<Claim>, Error>, db: Db, fs: Fs, script: seq<Call>)

  /** The statement once: a lost reply leaves a row running that nobody was told of. */
  function OneClaim(db: Db, fs: Fs, script: seq<Call>, name: string, pick: Db -> Option<string>): Claiming {
    var met := Met(db, fs, script, None);
    match ReplyOf(script)
    case Works => Claiming(Ok(Picked(met.0, name, pick)), AfterPick(met.0, name, pick), met.1, Rest(script))
    case ReplyLost => Claiming(Err(Database), AfterPick(met.0, name, pick), met.1, Rest(script))
    case _ => Claiming(Err(Database), met.0, met.1, Rest(script))
  }

  /** Tried again until it is answered or fails for good. */
  function ClaimLoop(db: Db, fs: Fs, script: seq<Call>, name: string, pick: Db -> Option<string>): Claiming
    decreases |script|
  {
    var one := OneClaim(db, fs, script, name, pick);
    if one.r.Ok? || ReplyOf(script).FailsForGood? then one else ClaimLoop(one.db, one.fs, one.script, name, pick)
  }

  /** Some call to come is answered at a moment when the request is there. */
  predicate SeesRequest(db: Db, fs: Fs, script: seq<Call>, task: string)
    decreases |script|
  {
    var one := OneReading(db, fs, script, task);
    one.answer == Some(true) || (script != [] && SeesRequest(one.db, one.fs, one.script, task))
  }

  /** An answer is what the database held at the moment of the read, and only a failure for good leaves none. */
  lemma {:induction false} FirstReadingIsTrue(db: Db, fs: Fs, script: seq<Call>, task: string)
    ensures
      var first := FirstReading(db, fs, script, task);
      && (first.answer.Some? <==> Answered(script))
      && (first.answer.Some? ==> first.answer.value == CancelRequested(first.db, task))
      && (Alone(script) ==> first.db == db && first.fs == fs && Alone(first.script))
      && (Reliable(script) ==> Answered(script) && Reliable(first.script))
    decreases |script|
  {
    var one := OneReading(db, fs, script, task);
    if script != [] && one.answer.None? && !ReplyOf(script).FailsForGood? { FirstReadingIsTrue(one.db, one.fs, one.script, task); }
  }

  /** A cancel event always ends the run as cancelled; without one only a read that saw the request does. */
  lemma {:induction false} StopsOnEventOrRequest(db: Db, fs: Fs, script: seq<Call>, waits: seq<Wait>, task: string)
    ensures EventCancels(waits) ==> Stops(db, fs, script, waits, task)
    ensures Stops(db, fs, script, waits, task) ==> EventCancels(waits) || SeesRequest(db, fs, script, task)
    ensures Alone(script) && !CancelRequested(db, task) ==> Stops(db, fs, script, waits, task) == EventCancels(waits)
    decreases |waits|
  {
    if waits == [] || waits[0] in {PayloadEnds, EventsClosed, ShuttingDown} {
    } else if waits[0].Notified? {
      StopsOnEventOrRequest(db, fs, script, waits[1..], task);
    } else {
      var one := OneReading(db, fs, script, task);
      StopsOnEventOrRequest(one.db, one.fs, one.script, waits[1..], task);
    }
  }

  /** A polling run sees the request that is there, if its calls are answered. */
  lemma {:induction false} PollsSeeTheRequest(db: Db, fs: Fs, script: seq<Call>, waits: seq<Wait>, task: string)
    requires Smooth(script) && CancelRequested(db, task) && waits != [] && waits[0].PollTick?
    ensures Stops(db, fs, script, waits, task)
  {
  }

  /**
    Exactly which runs are built as cancelled, with -1: those whose first read was answered and saw
    the request, and those whose payload was started and then stopped by an event or by a poll that
    saw it.  Every other run keeps the payload's code, or -1 when it was not started.
  */
  lemma BuiltExactly(job: Job, db: Db, fs: Fs, script: seq<Call>, task: string)
    ensures
      var first, o := FirstReading(db, fs, script, task), Built(job, db, fs, script, task);
      var started := job.subscribed && Answered(script) && !CancelRequested(first.db, task);
      var stopped := started && Stops(first.db, first.fs, first.script, job.waits, task);
      && (o.status.Cancelled? <==> (job.subscribed && Answered(script) && CancelRequested(first.db, task)) || stopped)
      && o.exitCode == (if started && !stopped then job.code else -1) && o.finished == job.finished
      && (o.status.Completed? <==> started && !stopped && job.code == 0)
  {
    FirstReadingIsTrue(db, fs, script, task);
  }

  /** With nobody else acting: cancelled exactly for the request on the row, if it was read, or a cancel event. */
  lemma BuiltAlone(job: Job, db: Db, fs: Fs, script: seq<Call>, task: string)
    requires Alone(script)
    ensures
      var started := job.subscribed && Answered(script) && !CancelRequested(db, task);
      var cancelled := if started then EventCancels(job.waits) else job.subscribed && Answered(script) && CancelRequested(db, task);
      Built(job, db, fs, script, task) == OutcomeOf(if started then job.code else -1, cancelled, job.finished)
  {
    FirstReadingIsTrue(db, fs, script, task);
    var first := FirstReading(db, fs, script, task);
    StopsOnEventOrRequest(first.db, first.fs, first.script, job.waits, task);
  }

  // ---------------------------------------------------------------- what nobody else changes

  function RecordAt(fs: Fs, k: Claim): Option<Completion> {
    if k in fs.dir && fs.dir[k] in fs.files then fs.files[fs.dir[k]].content else None
  }

  /** The record save settles on when nobody else acts: the one that is there, or ours. */
  function Chosen(fs: Fs, c: Completion): Completion {
    match RecordAt(fs, c.claim) case Some(earlier) => earlier case None => c
  }

  /** No file that was there is touched. */
  predicate FilesKept(fs: Fs, fs': Fs) {
    forall i :: i in fs.files ==> i in fs'.files && fs'.files[i] == fs.files[i]
  }

  predicate OtherFilesKept(fs: Fs, fs': Fs, ours: nat) {
    forall i :: i in fs.files && i != ours ==> i in fs'.files && fs'.files[i] == fs.files[i]
  }

  /** Nor is any name but this one. */
  predicate KeptBeside(fs: Fs, fs': Fs, k: Claim) {
    FilesKept(fs, fs') && fs'.dir - {k} == fs.dir - {k}
  }

  /** What is settled stays so. */
  ghost predicate Keeps(db: Db, db': Db) {
    forall k: Claim :: Over(db, k) ==> Over(db', k)
  }

  /** In part of a recovery: a record is still there as it was, or is gone and, if its claim was open, stored. */
  predicate ReplayedAt(db0: Db, fs0: Fs, db: Db, fs: Fs, k: Claim) {
    match RecordAt(fs0, k)
    case None => true
    case Some(c) =>
      || (RecordAt(fs, k) == Some(c) && (Open(db0, k) ==> Open(db, k)))
      || (k !in fs.dir && (Open(db0, k) ==> Stored(db, k, c.outcome)))
  }

  ghost predicate Replayed(db0: Db, fs0: Fs, db: Db, fs: Fs) {
    fs.dir.Keys <= fs0.dir.Keys && forall k :: ReplayedAt(db0, fs0, db, fs, k)
  }

  /** No terminal row changes or goes. */
  predicate Frozen(db: Db, db': Db) {
    forall id :: id in db.rows && IsTerminal(db.rows[id].status) ==> id in db'.rows && db'.rows[id] == db.rows[id]
  }

  /** The table after a turn of Run that ends well, when nobody else acts and the journal was empty. */
  function AfterTask(c: Claiming, job: Job): Db {
    match c.r
    case Ok(Some(k)) => DbDo(c.db, Complete(Completion(k, Built(job, c.db, c.fs, c.script, k.task))))
    case _ => c.db
  }

  // ---------------------------------------------------------------- a whole run of one worker

  /** The choice of claim_task.sql: an oldest pending row with the tags, if there is one. */
  ghost predicate Picks(pick: Db -> Option<string>, filter: map<string, string>) {
    forall db :: match pick(db)
                 case None => NoneLeft(db, filter)
                 case Some(id) => TaskTable.Oldest(db.rows, filter, id)
  }

  ghost predicate NoneLeft(db: Db, filter: map<string, string>) {
    forall id :: !TaskTable.Claimable(db.rows, filter, id)
  }

  /** What becomes of a task that is not cancelled by request. */
  function JobOutcome(job: Job): Outcome {
    OutcomeOf(if job.subscribed then job.code else -1, job.subscribed && EventCancels(job.waits), job.finished)
  }

  /** No row that is left to claim is older than this one. */
  ghost predicate OldestOf(db: Db, k: Claim, filter: map<string, string>) {
    forall id :: TaskTable.Claimable(db.rows, filter, id) ==> k.created <= db.rows[id].created
  }

  /** After n turns: the i-th claim ended as the i-th job does, each was the oldest, and unless every turn had one none is left. */
  ghost predicate Worked(db: Db, claims: seq<Issue>, jobs: seq<Job>, n: nat, filter: map<string, string>)
    requires n <= |jobs|
  {
    && |claims| <= n && (|claims| < n ==> NoneLeft(db, filter))
    && forall i :: 0 <= i < |claims| ==> Stored(db, claims[i].claim, JobOutcome(jobs[i])) && OldestOf(db, claims[i].claim, filter)
  }

  /** Claims and completions leave every terminal row as it is. */
  lemma {:induction false} ClaimsFreeze(db: Db, fs: Fs, script: seq<Call>, name: string, pick: Db -> Option<string>)
    requires Alone(script)
    ensures Frozen(db, ClaimLoop(db, fs, script, name, pick).db)
    decreases |script|
  {
    var one := OneClaim(db, fs, script, name, pick);
    if one.r.Err? && !ReplyOf(script).FailsForGood? { ClaimsFreeze(one.db, one.fs, one.script, name, pick); }
  }

  /** The run of a task just claimed, when every call works, ends as its job does: no request can be on its row. */
  lemma FreshTaskEnds(db: Db, id: string, name: string, job: Job, fs: Fs, script: seq<Call>)
    requires DbInv(db) && id in db.rows && db.rows[id].status.Pending? && Smooth(script)
    ensures Built(job, DbDo(db, Grant(id, name)), fs, script, id) == JobOutcome(job)
  {
    var claimed := DbDo(db, Grant(id, name));
    assert !CancelRequested(claimed, id);
    FirstReadingIsTrue(claimed, fs, script, id);
    BuiltAlone(job, claimed, fs, script, id);
  }

  /** Claiming a pending row and completing that claim. */
  lemma ClaimedAndCompleted(db: Db, id: string, name: string, o: Outcome, filter: map<string, string>)
    requires DbInv(db) && TaskTable.Oldest(db.rows, filter, id) && IsTerminal(o.status)
    ensures
      var k := GrantedClaim(db, id, name);
      var db' := DbDo(DbDo(db, Grant(id, name)), Complete(Completion(k, o)));
      && Stored(db', k, o) && Frozen(db, db') && OldestOf(db', k, filter)
      && forall other :: TaskTable.Claimable(db'.rows, filter, other) ==>
           TaskTable.Claimable(db.rows, filter, other) && db'.rows[other] == db.rows[other]
  {
  }

  /** One more turn of a run in which every call works. */
  lemma WorkedOnce(db: Db, fs: Fs, script: seq<Call>, name: string, pick: Db -> Option<string>, filter: map<string, string>,
    claims: seq<Issue>, jobs: seq<Job>, n: nat)
    requires DbInv(db) && Smooth(script) && Picks(pick, filter) && n < |jobs| && Worked(db, claims, jobs, n, filter)
    requires fs.dir.Keys == {}
    ensures
      var c := ClaimLoop(db, fs, script, name, pick);
      match Picked(db, name, pick)
      case Some(k) => Worked(AfterTask(c, jobs[n]), claims + [Issue(fs.dir.Keys, k, true)], jobs, n + 1, filter)
      case None => Worked(AfterTask(c, jobs[n]), claims, jobs, n + 1, filter)
  {
    match Picked(db, name, pick)
    case None => assert NoneLeft(db, filter);
    case Some(k) =>
      FreshTaskEnds(db, k.task, name, jobs[n], fs, Rest(script));
      ClaimedAndCompleted(db, k.task, name, JobOutcome(jobs[n]), filter);
      assert |claims| == n;
      OneMoreWorked(db, AfterTask(ClaimLoop(db, fs, script, name, pick), jobs[n]), claims, Issue(fs.dir.Keys, k, true), jobs, filter);
  }

  lemma OneMoreWorked(db: Db, db': Db, claims: seq<Issue>, last: Issue, jobs: seq<Job>, filter: map<string, string>)
    requires |claims| < |jobs| && Worked(db, claims, jobs, |claims|, filter) && Frozen(db, db')
    requires Stored(db', last.claim, JobOutcome(jobs[|claims|])) && OldestOf(db', last.claim, filter)
    requires forall other :: TaskTable.Claimable(db'.rows, filter, other) ==>
      TaskTable.Claimable(db.rows, filter, other) && db'.rows[other] == db.rows[other]
    ensures Worked(db', claims + [last], jobs, |claims| + 1, filter)
  {
    forall i | 0 <= i < |claims| ensures Stored(db', claims[i].claim, JobOutcome(jobs[i])) && OldestOf(db', claims[i].claim, filter) {
      assert Stored(db, claims[i].claim, JobOutcome(jobs[i])) && OldestOf(db, claims[i].claim, filter);
    }
  }
}

/** What the completion protocol promises, over every run of it. */
module Guarantees {
  import opened Wrappers
  import opened Tasks
  import opened Journal
  import opened Protocol
  import opened Invariant
  import opened Steps

  // ---------------------------------------------------------------- no outcome is lost

  lemma StepKeepsHistory(s: State, s': State)
    requires Step(s, s')
    ensures s.past.saved <= s'.past.saved && s.past.built <= s'.past.built && s.past.cleaned <= s'.past.cleaned
    ensures s.db.clock <= s'.db.clock
  {
  }

  lemma {:induction false} HistoryGrows(states: seq<State>, i: nat, j: nat)
    requires Run(states) && i <= j < |states|
    ensures states[i].past.saved <= states[j].past.saved && states[i].past.built <= states[j].past.built
    ensures states[i].past.cleaned <= states[j].past.cleaned && states[i].db.clock <= states[j].db.clock
    decreases j - i
  {
    if i < j {
      HistoryGrows(states, i, j - 1);
      assert StepAt(states, j - 1);
      StepKeepsHistory(states[j - 1], states[j]);
    }
  }

  /**
    From the moment save returns, in every later state: the full record is visible and durable,
    or the row of its claim is terminal, or no row matches the claim any more.  Task files are
    only ever removed after that moment.
  */
  lemma NoOutcomeIsLost(states: seq<State>, i: nat, j: nat, x: Saved)
    requires Run(states) && i <= j < |states|
    requires x in states[i].past.saved || x in states[i].past.cleaned
    ensures x.dir in states[j].disks
    ensures
      || Kept(states[j].disks[x.dir], x.completion)
      || !Matches(states[j].db, x.completion.claim)
      || IsTerminal(states[j].db.rows[x.completion.claim.task].status)
  {
    InvAlways(states, i);
    HistoryGrows(states, i, j);
    InvAlways(states, j);
  }

  // ---------------------------------------------------------------- crash atomicity

  /** Every visible name decodes to a complete record of its claim, now and after a power loss at this point. */
  lemma VisibleRecordsAreComplete(states: seq<State>, i: nat, dir: nat, k: Claim, garbage: map<nat, Option<Completion>>)
    requires Run(states) && i < |states| && dir in states[i].disks
    ensures k in states[i].disks[dir].dir ==> Decode(states[i].disks[dir], k).Some?
    ensures
      var after := FsDo(states[i].disks[dir], PowerLoss(garbage));
      k in after.dir ==> Decode(after, k).Some? && Decode(after, k).value in states[i].past.built
  {
    InvAlways(states, i);
    var fs := states[i].disks[dir];
    var after := FsDo(fs, PowerLoss(garbage));
    assert FilesOk(fs, states[i].past);
    if k in fs.dir { assert Sound(fs, fs.dir, k); }
    if k in after.dir { assert Sound(fs, fs.disk, k); }
  }

  /** A record save returned, its own or another writer's, outlives a power loss while its claim is open. */
  lemma SavedRecordsSurvivePowerLoss(states: seq<State>, i: nat, x: Saved, garbage: map<nat, Option<Completion>>)
    requires Run(states) && i < |states| && x in states[i].past.saved && !Settled(states[i].db, x.completion.claim)
    ensures x.dir in states[i].disks
    ensures Decode(FsDo(states[i].disks[x.dir], PowerLoss(garbage)), x.completion.claim) == Some(x.completion)
  {
    InvAlways(states, i);
  }

  /** As far as the table is concerned, a step is one statement. */
  ghost predicate DbStep(db: Db, db': Db) {
    DbInv(db) && exists op :: OpOk(op) && db' == DbDo(db, op)
  }

  lemma StepsAreStatements(states: seq<State>, i: nat)
    requires Run(states) && i + 1 < |states|
    ensures DbStep(states[i].db, states[i + 1].db)
  {
    InvAlways(states, i);
    var s := states[i];
    assert StepAt(states, i);
    var a :| Enabled(s, a) && states[i + 1] == Do(s, EffectOf(s, a));
    StepsAreJustified(s, a);
    OpIsOk(s, EffectOf(s, a));
  }

  lemma StepKeepsSettled(db: Db, db': Db, k: Claim)
    requires DbStep(db, db') && Past(db, k)
    ensures Past(db', k)
    ensures Settled(db, k) ==> Settled(db', k)
    ensures !Matches(db, k) ==> !Matches(db', k)
  {
    var op :| OpOk(op) && db' == DbDo(db, op);
    SettledIsForever(db, op, k);
  }

  /** The table's own history of a run. */
  function Tables(states: seq<State>): (dbs: seq<Db>)
    ensures |dbs| == |states| && forall i :: 0 <= i < |states| ==> dbs[i] == states[i].db
  {
    seq(|states|, i requires 0 <= i < |states| => states[i].db)
  }

  ghost predicate TableStepAt(dbs: seq<Db>, i: nat)
    requires i + 1 < |dbs|
  {
    DbStep(dbs[i], dbs[i + 1])
  }

  ghost predicate TableRun(dbs: seq<Db>) {
    forall i: nat {:trigger TableStepAt(dbs, i)} :: i + 1 < |dbs| ==> TableStepAt(dbs, i)
  }

  lemma RunsAreTableRuns(states: seq<State>)
    requires Run(states)
    ensures TableRun(Tables(states))
  {
    forall i: nat | i + 1 < |states| ensures TableStepAt(Tables(states), i) {
      StepsAreStatements(states, i);
    }
  }

  lemma {:induction false} TablesSettle(dbs: seq<Db>, i: nat, j: nat, k: Claim)
    requires TableRun(dbs) && i <= j < |dbs| && Past(dbs[i], k)
    ensures Past(dbs[j], k)
    ensures Settled(dbs[i], k) ==> Settled(dbs[j], k)
    ensures !Matches(dbs[i], k) ==> !Matches(dbs[j], k)
    decreases j - i
  {
    if i < j {
      TablesSettle(dbs, i, j - 1, k);
      assert TableStepAt(dbs, j - 1);
      StepKeepsSettled(dbs[j - 1], dbs[j], k);
    }
  }

  lemma SettledStays(states: seq<State>, i: nat, j: nat, k: Claim)
    requires Run(states) && i <= j < |states| && Past(states[i].db, k)
    ensures Past(states[j].db, k)
    ensures Settled(states[i].db, k) ==> Settled(states[j].db, k)
    ensures !Matches(states[i].db, k) ==> !Matches(states[j].db, k)
  {
    RunsAreTableRuns(states);
    TablesSettle(Tables(states), i, j, k);
  }

  /** Once a process acknowledges a record, replaying any record of that claim never changes the table again. */
  lemma UndoneRemovalIsHarmless(states: seq<State>, i: nat, j: nat, w: nat, c: Completion)
    requires Run(states) && i <= j < |states| && w in states[i].procs
    requires states[i].procs[w].pc.Removing? || states[i].procs[w].pc.Acking?
    requires c.claim == states[i].procs[w].pc.completion.claim
    ensures DbDo(states[j].db, Complete(c)) == states[j].db
  {
    InvAlways(states, i);
    var p := states[i].procs[w];
    assert ProcOk(states[i].db, states[i].disks[p.dir], states[i].past, p);
    SettledStays(states, i, j, c.claim);
  }

  // ---------------------------------------------------------------- confirmations

  /** Every reply that said true for one claim carried the same status, exit code and finish time. */
  lemma ConfirmationsAgree(states: seq<State>, i: nat, j: nat, c: Completion, c': Completion)
    requires Run(states) && i <= j < |states|
    requires c in states[i].past.confirmed && c' in states[j].past.confirmed && c.claim == c'.claim
    ensures c.outcome == c'.outcome
    ensures Matches(states[j].db, c.claim) ==> SameOutcome(states[j].db.rows[c.claim.task], c.outcome)
  {
    ConfirmedGrows(states, i, j);
    InvAlways(states, j);
  }

  lemma {:induction false} ConfirmedGrows(states: seq<State>, i: nat, j: nat)
    requires Run(states) && i <= j < |states|
    ensures states[i].past.confirmed <= states[j].past.confirmed
    decreases j - i
  {
    if i < j {
      ConfirmedGrows(states, i, j - 1);
      assert StepAt(states, j - 1);
    }
  }

  /** After the claimed row was deleted, its records never change any later incarnation of the id. */
  lemma DeletedClaimsTouchNothing(states: seq<State>, i: nat, j: nat, c: Completion)
    requires Run(states) && i <= j < |states| && c in states[i].past.built && !Matches(states[i].db, c.claim)
    ensures DbDo(states[j].db, Complete(c)) == states[j].db
    ensures !Confirms(states[j].db, c)
  {
    InvAlways(states, i);
    SettledStays(states, i, j, c.claim);
  }

  // ---------------------------------------------------------------- at most once

  lemma StepMovesRowsForward(db: Db, db': Db, id: string)
    requires DbStep(db, db') && id in db'.rows && db'.rows[id].created <= db.clock
    ensures id in db.rows && Descends(db.rows[id], db'.rows[id])
    ensures Forward(db.rows[id].status, db'.rows[id].status)
  {
    var op :| OpOk(op) && db' == DbDo(db, op);
    if id in db.rows { StatementsMoveRowsForward(db, op, id); }
  }

  lemma StepKeepsClock(db: Db, db': Db)
    requires DbStep(db, db')
    ensures db.clock <= db'.clock && DbInv(db)
  {
  }

  lemma {:induction false} ClockNeverGoesBack(dbs: seq<Db>, i: nat, j: nat)
    requires TableRun(dbs) && i <= j < |dbs|
    ensures dbs[i].clock <= dbs[j].clock
    decreases j - i
  {
    if i < j {
      ClockNeverGoesBack(dbs, i, j - 1);
      assert TableStepAt(dbs, j - 1);
      StepKeepsClock(dbs[j - 1], dbs[j]);
    }
  }

  lemma DescendsIsTransitive(a: Row, b: Row, c: Row)
    requires Descends(a, b) && Descends(b, c)
    ensures Descends(a, c)
  {
  }

  lemma LastStepMovesForward(dbs: seq<Db>, i: nat, j: nat, id: string)
    requires TableRun(dbs) && i < j < |dbs| && id in dbs[j].rows && dbs[j].rows[id].created <= dbs[i].clock
    ensures id in dbs[j - 1].rows && Descends(dbs[j - 1].rows[id], dbs[j].rows[id])
  {
    ClockNeverGoesBack(dbs, i, j - 1);
    assert TableStepAt(dbs, j - 1);
    StepMovesRowsForward(dbs[j - 1], dbs[j], id);
  }

  lemma {:induction false} TableRowsOnlyMoveForward(dbs: seq<Db>, i: nat, j: nat, id: string)
    requires TableRun(dbs) && i <= j < |dbs|
    requires id in dbs[i].rows && id in dbs[j].rows && dbs[i].rows[id].created == dbs[j].rows[id].created <= dbs[i].clock
    ensures Descends(dbs[i].rows[id], dbs[j].rows[id])
    decreases j - i
  {
    if i < j {
      LastStepMovesForward(dbs, i, j, id);
      TableRowsOnlyMoveForward(dbs, i, j - 1, id);
      DescendsIsTransitive(dbs[i].rows[id], dbs[j - 1].rows[id], dbs[j].rows[id]);
    }
  }

  /** One incarnation never goes back: later states only, one claim only, and a terminal row is frozen. */
  lemma IncarnationsOnlyMoveForward(states: seq<State>, i: nat, j: nat, id: string)
    requires Run(states) && i <= j < |states|
    requires id in states[i].db.rows && id in states[j].db.rows
    requires states[i].db.rows[id].created == states[j].db.rows[id].created
    ensures Descends(states[i].db.rows[id], states[j].db.rows[id])
  {
    InvAlways(states, i);
    RunsAreTableRuns(states);
    TableRowsOnlyMoveForward(Tables(states), i, j, id);
  }

  /** No incarnation is handed to two claimants, and none has its payload started twice. */
  lemma AtMostOnce(states: seq<State>, i: nat, a: nat, b: nat)
    requires Run(states) && i < |states| && a < b
    ensures b < |states[i].past.granted| ==> !SameIncarnation(states[i].past.granted[a], states[i].past.granted[b])
    ensures b < |states[i].past.payloads| ==>
      !SameIncarnation(states[i].past.payloads[a].claim, states[i].past.payloads[b].claim)
    ensures b < |states[i].past.payloads| ==> states[i].past.payloads[b].claim in states[i].past.granted
  {
    InvAlways(states, i);
  }

  // ---------------------------------------------------------------- cancellation

  predicate IsIncarnation(k: Claim, id: string, created: nat) {
    k.task == id && k.created == created
  }

  /** As far as claims are concerned, a step is one statement, which hands out at most the pending row it takes. */
  ghost predicate GrantStep(db: Db, granted: seq<Claim>, db': Db, granted': seq<Claim>) {
    exists op :: OpOk(op) && db' == DbDo(db, op) && (granted' == granted || HandsOut(db, op, granted, granted'))
  }

  predicate HandsOut(db: Db, op: DbOp, granted: seq<Claim>, granted': seq<Claim>) {
    op.Grant? && op.id in db.rows && db.rows[op.id].status.Pending? && granted' == granted + [GrantedClaim(db, op.id, op.worker)]
  }

  lemma StepsHandOutPendingRows(s: State, s': State)
    requires Inv(s) && Step(s, s')
    ensures GrantStep(s.db, s.past.granted, s'.db, s'.past.granted)
  {
    var a :| Enabled(s, a) && s' == Do(s, EffectOf(s, a));
    var e := EffectOf(s, a);
    StepsAreJustified(s, a);
    OpIsOk(s, e);
    NotesHandOut(s.db, FsDo(s.disks[e.dir], e.fs), s.past, e.dir, e.db, e.note);
  }

  lemma NotesHandOut(db: Db, fs: Fs, h: History, dir: nat, op: DbOp, note: Note)
    requires NoteJustified(db, fs, h, dir, op, note)
    ensures Remember(h, note).granted == h.granted || HandsOut(db, op, h.granted, Remember(h, note).granted)
  {
  }

  /** This incarnation was not handed out, and is not pending any more. */
  predicate NeverClaimed(db: Db, granted: seq<Claim>, id: string, created: nat) {
    && created <= db.clock
    && (id in db.rows && db.rows[id].created == created ==> !db.rows[id].status.Pending?)
    && forall i :: 0 <= i < |granted| ==> !IsIncarnation(granted[i], id, created)
  }

  lemma StepKeepsNeverClaimed(db: Db, granted: seq<Claim>, db': Db, granted': seq<Claim>, id: string, created: nat)
    requires DbInv(db) && GrantStep(db, granted, db', granted') && NeverClaimed(db, granted, id, created)
    ensures NeverClaimed(db', granted', id, created)
  {
    var op :| OpOk(op) && db' == DbDo(db, op) && (granted' == granted || HandsOut(db, op, granted, granted'));
    StatementsAreExact(db, op);
    if id in db'.rows && id in db.rows { StatementsMoveRowsForward(db, op, id); }
  }

  lemma {:induction false} NeverClaimedStays(states: seq<State>, i: nat, j: nat, id: string, created: nat)
    requires Run(states) && i <= j < |states| && NeverClaimed(states[i].db, states[i].past.granted, id, created)
    ensures NeverClaimed(states[j].db, states[j].past.granted, id, created)
    decreases j - i
  {
    if i < j {
      NeverClaimedStays(states, i, j - 1, id, created);
      InvAlways(states, j - 1);
      assert StepAt(states, j - 1);
      StepsHandOutPendingRows(states[j - 1], states[j]);
      StepKeepsNeverClaimed(states[j - 1].db, states[j - 1].past.granted, states[j].db, states[j].past.granted, id, created);
    }
  }

  /** A pending row belongs to no claim that was handed out. */
  lemma PendingRowsAreUnclaimed(db: Db, h: History, id: string)
    requires DbInv(db) && GrantsOk(db, h) && id in db.rows && db.rows[id].status.Pending?
    ensures forall i :: 0 <= i < |h.granted| ==> !IsIncarnation(h.granted[i], id, db.rows[id].created)
  {
    forall i | 0 <= i < |h.granted| ensures !IsIncarnation(h.granted[i], id, db.rows[id].created) {
      assert Taken(db, h.granted[i]) && GoodClaim(db, h.granted[i]);
    }
  }

  lemma CancelHandsOutNothing(db: Db, granted: seq<Claim>, granted': seq<Claim>, id: string)
    requires DbInv(db) && id in db.rows && db.rows[id].status.Pending?
    requires GrantStep(db, granted, DbDo(db, Cancel(id)), granted')
    ensures granted' == granted
  {
    var op :| OpOk(op) && DbDo(db, Cancel(id)) == DbDo(db, op) && (granted' == granted || HandsOut(db, op, granted, granted'));
    StatementsAreExact(db, Cancel(id));
    StatementsAreExact(db, op);
  }

  /** The claims of a state in which this pending row has just been cancelled. */
  lemma CancelledIsNeverClaimed(s: State, s': State, id: string)
    requires Inv(s) && Step(s, s') && id in s.db.rows && s.db.rows[id].status.Pending? && s'.db == DbDo(s.db, Cancel(id))
    ensures NeverClaimed(s'.db, s'.past.granted, id, s.db.rows[id].created)
    ensures id in s'.db.rows && s'.db.rows[id].created == s.db.rows[id].created
    ensures s'.db.rows[id].status.Cancelled? && s'.db.rows[id].started.None?
  {
    StepsHandOutPendingRows(s, s');
    CancelHandsOutNothing(s.db, s.past.granted, s'.past.granted, id);
    PendingRowsAreUnclaimed(s.db, s.past, id);
    StatementsAreExact(s.db, Cancel(id));
  }

  /**
    A task cancelled while it is pending never runs: in every later state its row is cancelled as it
    was then, or gone, and that incarnation was never handed out, nor its payload started.
  */
  lemma CancelledPendingTasksNeverRun(states: seq<State>, i: nat, j: nat, id: string)
    requires Run(states) && i < j < |states| && id in states[i].db.rows && states[i].db.rows[id].status.Pending?
    requires states[i + 1].db == DbDo(states[i].db, Cancel(id))
    ensures
      var created := states[i].db.rows[id].created;
      && (id in states[j].db.rows && states[j].db.rows[id].created == created ==>
           states[j].db.rows[id].status.Cancelled? && states[j].db.rows[id].started.None?)
      && (forall a :: 0 <= a < |states[j].past.granted| ==> !IsIncarnation(states[j].past.granted[a], id, created))
      && (forall a :: 0 <= a < |states[j].past.payloads| ==> !IsIncarnation(states[j].past.payloads[a].claim, id, created))
  {
    var created := states[i].db.rows[id].created;
    InvAlways(states, i);
    assert StepAt(states, i);
    CancelledIsNeverClaimed(states[i], states[i + 1], id);
    NeverClaimedStays(states, i + 1, j, id, created);
    if id in states[j].db.rows && states[j].db.rows[id].created == created { IncarnationsOnlyMoveForward(states, i + 1, j, id); }
    InvAlways(states, j);
    StartedWereGranted(states[j]);
  }

  lemma StartedWereGranted(s: State)
    requires Inv(s)
    ensures forall a :: 0 <= a < |s.past.payloads| ==> s.past.payloads[a].claim in s.past.granted
  {
  }

  /** A request stored before a successful read of the run makes the journaled outcome cancelled with -1. */
  lemma RequestsBeforeAReadCancel(states: seq<State>, i: nat, v: Verdict)
    requires Run(states) && i < |states| && v in states[i].past.verdicts && v.read.Some?
    requires Matches(states[i].db, v.completion.claim) && states[i].db.rows[v.completion.claim.task].cancelAt.Some?
    requires states[i].db.rows[v.completion.claim.task].cancelAt.value <= v.read.value
    ensures v.completion.outcome.status.Cancelled? && v.completion.outcome.exitCode == -1
  {
    InvAlways(states, i);
    assert VerdictOk(states[i].db, states[i].past, v);
  }

  /** A payload that was started had no request stored at its pre-execution read. */
  lemma RequestsBeforeStartPreventIt(states: seq<State>, i: nat, a: nat)
    requires Run(states) && i < |states| && a < |states[i].past.payloads|
    requires Matches(states[i].db, states[i].past.payloads[a].claim)
    requires states[i].db.rows[states[i].past.payloads[a].claim.task].cancelAt.Some?
    ensures states[i].db.rows[states[i].past.payloads[a].claim.task].cancelAt.value > states[i].past.payloads[a].checkedAt
  {
    InvAlways(states, i);
  }

  /**
    While the row of the claim is there, an outcome is cancelled with -1 exactly when a cancel
    event ended the run, or a request is on that very row from no later than the run's last
    successful read.  A shutdown alone, or a request on an earlier row of the id, never makes it so.
  */
  lemma CancelledExactlyOnRequest(states: seq<State>, i: nat, v: Verdict)
    requires Run(states) && i < |states| && v in states[i].past.verdicts && Matches(states[i].db, v.completion.claim)
    ensures
      var row, o := states[i].db.rows[v.completion.claim.task], v.completion.outcome;
      (o.status.Cancelled? && o.exitCode == -1) <==>
        (v.why == Some(Event) || (row.cancelAt.Some? && v.read.Some? && row.cancelAt.value <= v.read.value))
    ensures v.completion.outcome.status.Cancelled? ==> v.completion.outcome.exitCode == -1
  {
    InvAlways(states, i);
    assert VerdictOk(states[i].db, states[i].past, v);
  }

  /**
    Also after the row is gone, cancelled is recorded only after a cancel event, or a read that saw a
    request on that id made since the claim: a stale request of an earlier row never counts.
  */
  lemma CancelledOnlyOnRequest(states: seq<State>, i: nat, v: Verdict)
    requires Run(states) && i < |states| && v in states[i].past.verdicts
    ensures v.completion.outcome.status.Cancelled? <==> v.why.Some?
    ensures v.why.Some? && v.why.value.ReadAt? ==>
      exists r :: r in states[i].past.requests && r.task == v.completion.claim.task &&
        v.completion.claim.started < r.at <= v.why.value.at
  {
    InvAlways(states, i);
    assert VerdictOk(states[i].db, states[i].past, v);
  }

  // ---------------------------------------------------------------- recovery precedes work

  predicate Within(keys: set<Claim>, here: set<Claim>, next: Next) {
    match next
    case Loop => keys <= here
    case Quit => true
    case Recover(rest) => keys <= here + (set k | k in rest)
  }

  /** The names a worker alone in its workdir can meet there at each program point. */
  predicate SoloOk(pc: Pc, keys: set<Claim>) {
    match pc
    case Down => true
    case Listing => true
    case Recovering(names) => keys <= set k | k in names
    case Creating(_, next) => Within(keys, {}, next)
    case Encoding(_, next, _) => Within(keys, {}, next)
    case Syncing(_, next, _) => Within(keys, {}, next)
    case Linking(_, next, _) => Within(keys, {}, next)
    case Clashing(_, next, _) => Within(keys, {}, next)
    case Publishing(c, next) => Within(keys, {c.claim}, next)
    case Cleaning(c, next) => Within(keys, {c.claim}, next)
    case Committing(c, next) => Within(keys, {c.claim}, next)
    case Removing(c, next) => Within(keys, {c.claim}, next)
    case Acking(c, next) => Within(keys, {}, next)
    case _ => keys == {}
  }

  predicate Alone(s: State, w: nat) {
    w in s.procs && s.procs[w].dir in s.disks &&
    forall v :: v in s.procs && v != w ==> s.procs[v].dir != s.procs[w].dir
  }

  predicate Solo(s: State, w: nat) {
    Alone(s, w) && SoloOk(s.procs[w].pc, s.disks[s.procs[w].dir].dir.Keys)
  }

  lemma TurnKeepsSolo(db: Db, p: Proc, fs: Fs, m: Move)
    requires WorkerReady(db, p.pc, fs, m) && SoloOk(p.pc, fs.dir.Keys)
    ensures SoloOk(TurnOf(db, p, fs, m).pc, FsDo(fs, TurnOf(db, p, fs, m).fs).dir.Keys)
  {
    if m.RecoverRecord? || m.RecordGone? {
      assert p.pc.names == [p.pc.names[0]] + p.pc.names[1..];
    }
    if m.LinkRecord? && p.pc.completion.claim !in fs.dir {
      assert FsDo(fs, Link(p.pc.completion.claim, p.pc.ino)).dir.Keys == fs.dir.Keys + {p.pc.completion.claim};
    }
  }

  lemma OthersKeepSolo(s: State, a: Action, w: nat)
    requires Solo(s, w) && Enabled(s, a) && (a.Work? ==> a.w != w)
    ensures Solo(Do(s, EffectOf(s, a)), w)
  {
    var e := EffectOf(s, a);
    var d := s.procs[w].dir;
    match a
    case Work(v, m) =>
      assert e.dir == s.procs[v].dir;
    case LosePower(_, _) =>
    case FlushEntry(_, _) =>
      assert Do(s, e).disks[d].dir == s.disks[d].dir;
    case _ =>
      assert Do(s, e).disks[d] == s.disks[d];
  }

  lemma OwnTurnKeepsSolo(s: State, w: nat, m: Move)
    requires Solo(s, w) && Enabled(s, Work(w, m))
    ensures Solo(Do(s, EffectOf(s, Work(w, m))), w)
  {
    var p := s.procs[w];
    TurnKeepsSolo(s.db, p, s.disks[p.dir], m);
  }

  lemma StepKeepsSolo(s: State, s': State, w: nat)
    requires Solo(s, w) && Step(s, s')
    ensures Solo(s', w)
  {
    var a :| Enabled(s, a) && s' == Do(s, EffectOf(s, a));
    if a.Work? && a.w == w { OwnTurnKeepsSolo(s, w, a.move); } else { OthersKeepSolo(s, a, w); }
  }

  lemma {:induction false} SoloAlways(states: seq<State>, i: nat, w: nat)
    requires Run(states) && i < |states| && Alone(states[0], w)
    ensures Solo(states[i], w)
  {
    if i > 0 {
      SoloAlways(states, i - 1, w);
      assert StepAt(states, i - 1);
      StepKeepsSolo(states[i - 1], states[i], w);
    }
  }

  /**
    A worker alone in its workdir never is where it claims a task while its journal holds a record,
    over any sequence of kills, power losses and restarts: whether the claim finds a task, finds
    none, or loses its reply.
  */
  lemma RecoveryPrecedesWork(states: seq<State>, i: nat, w: nat)
    requires Run(states) && i < |states| && Alone(states[0], w)
    requires w in states[i].procs && states[i].procs[w].pc.Idle?
    ensures states[i].procs[w].dir in states[i].disks && states[i].disks[states[i].procs[w].dir].dir == map[]
  {
    SoloAlways(states, i, w);
  }
}

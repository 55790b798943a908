/**
  One outcome for each claim.  Without other writers of the journal a claim's outcome is built
  once, so whatever is journaled, replayed and stored for it is that outcome.
*/
module Outcomes {
  import opened Wrappers
  import opened Tasks
  import opened Journal
  import opened Protocol
  import opened Invariant
  import opened Steps

  // ---------------------------------------------------------------- the invariant

  ghost predicate BuiltOnce(h: History) {
    && (forall c, c' :: c in h.built && c' in h.built && c.claim == c'.claim ==> c == c')
    && (forall c :: c in h.built ==> c.claim in h.granted)
  }

  /** A claim that is still running was not built yet. */
  ghost predicate Unbuilt(h: History, pc: Pc) {
    RunningOf(pc).Some? ==> forall c :: c in h.built ==> c.claim != RunningOf(pc).value
  }

  ghost predicate RunsApart(procs: map<nat, Proc>) {
    forall v, w :: v in procs && w in procs && v != w && RunningOf(procs[v].pc).Some? ==>
      RunningOf(procs[v].pc) != RunningOf(procs[w].pc)
  }

  ghost predicate OnceIn(procs: map<nat, Proc>, h: History) {
    BuiltOnce(h) && RunsApart(procs) && forall w :: w in procs ==> Unbuilt(h, procs[w].pc)
  }

  ghost predicate Once(s: State) {
    OnceIn(s.procs, s.past)
  }

  // ---------------------------------------------------------------- every step keeps it

  /** A worker's turn takes up only a claim just granted, and lays one down when its outcome is built. */
  lemma TurnRuns(db: Db, p: Proc, fs: Fs, m: Move)
    requires WorkerReady(db, p.pc, fs, m) && !m.Submit?
    ensures
      var t := TurnOf(db, p, fs, m);
      && !t.note.Submitted?
      && (RunningOf(t.pc).None? || RunningOf(t.pc) == RunningOf(p.pc) ||
          (m.ClaimTask? && RunningOf(t.pc) == Some(GrantedClaim(db, m.id, p.name))))
      && (t.note.Built? ==> RunningOf(p.pc) == Some(t.note.verdict.completion.claim) && RunningOf(t.pc).None?)
  {
  }

  /** A claim just granted was never built, and nobody runs it. */
  lemma GrantedClaimIsFresh(s: State, id: string, worker: string)
    requires ProcsOk(s) && GrantsOk(s.db, s.past) && BuiltOnce(s.past) && id in s.db.rows && s.db.rows[id].status.Pending?
    ensures forall c :: c in s.past.built ==> c.claim != GrantedClaim(s.db, id, worker)
    ensures forall v :: v in s.procs ==> RunningOf(s.procs[v].pc) != Some(GrantedClaim(s.db, id, worker))
  {
    var k := GrantedClaim(s.db, id, worker);
    assert k !in s.past.granted;
    forall v | v in s.procs ensures RunningOf(s.procs[v].pc) != Some(k) {
      assert ProcOk(s.db, s.disks[s.procs[v].dir], s.past, s.procs[v]);
    }
  }

  lemma NoteKeepsOnce(h: History, note: Note, running: Option<Claim>)
    requires BuiltOnce(h) && !note.Submitted?
    requires note.Built? ==> running == Some(note.verdict.completion.claim) && running.value in h.granted
    requires note.Built? ==> forall c :: c in h.built ==> c.claim != running.value
    ensures BuiltOnce(Remember(h, note))
  {
  }

  lemma NoteKeepsUnbuilt(h: History, note: Note, pc: Pc)
    requires Unbuilt(h, pc) && !note.Submitted?
    requires note.Built? ==> RunningOf(pc) != Some(note.verdict.completion.claim)
    ensures Unbuilt(Remember(h, note), pc)
  {
  }

  /** The worker that moves, at its new program point. */
  lemma MoverIsUnbuilt(s: State, w: nat, m: Move)
    requires Inv(s) && Once(s) && Enabled(s, Work(w, m)) && !m.Submit?
    ensures
      var t := TurnOf(s.db, s.procs[w], s.disks[s.procs[w].dir], m);
      BuiltOnce(Remember(s.past, t.note)) && Unbuilt(Remember(s.past, t.note), t.pc)
  {
    var p := s.procs[w];
    var t := TurnOf(s.db, p, s.disks[p.dir], m);
    TurnRuns(s.db, p, s.disks[p.dir], m);
    assert ProcOk(s.db, s.disks[p.dir], s.past, p) && Unbuilt(s.past, p.pc);
    if m.ClaimTask? { GrantedClaimIsFresh(s, m.id, p.name); }
    NoteKeepsOnce(s.past, t.note, RunningOf(p.pc));
    NoteKeepsUnbuilt(s.past, t.note, t.pc);
  }

  /** One process moves and makes one note. */
  lemma MoveKeepsOnce(procs: map<nat, Proc>, h: History, w: nat, p: Proc, note: Note)
    requires OnceIn(procs, h) && w in procs && !note.Submitted?
    requires BuiltOnce(Remember(h, note)) && Unbuilt(Remember(h, note), p.pc)
    requires note.Built? ==> RunningOf(procs[w].pc) == Some(note.verdict.completion.claim)
    requires RunningOf(p.pc).None? || RunningOf(p.pc) == RunningOf(procs[w].pc) ||
      (forall v :: v in procs ==> RunningOf(procs[v].pc) != RunningOf(p.pc))
    ensures OnceIn(procs + map[w := p], Remember(h, note))
  {
    var procs' := procs + map[w := p];
    forall v | v in procs' ensures Unbuilt(Remember(h, note), procs'[v].pc) {
      if v != w {
        assert Unbuilt(h, procs[v].pc);
        NoteKeepsUnbuilt(h, note, procs[v].pc);
      }
    }
    forall u, v | u in procs' && v in procs' && u != v && RunningOf(procs'[u].pc).Some?
      ensures RunningOf(procs'[u].pc) != RunningOf(procs'[v].pc)
    {
    }
  }

  lemma WorkMovesOne(s: State, w: nat, m: Move)
    requires Enabled(s, Work(w, m))
    ensures
      var t := TurnOf(s.db, s.procs[w], s.disks[s.procs[w].dir], m);
      && Do(s, EffectOf(s, Work(w, m))).procs == s.procs + map[w := Moved(s.procs[w], m, t)]
      && Do(s, EffectOf(s, Work(w, m))).past == Remember(s.past, t.note)
  {
  }

  lemma WorkKeepsOnce(s: State, w: nat, m: Move)
    requires Inv(s) && Once(s) && Enabled(s, Work(w, m)) && !m.Submit?
    ensures Once(Do(s, EffectOf(s, Work(w, m))))
  {
    var p := s.procs[w];
    var t := TurnOf(s.db, p, s.disks[p.dir], m);
    MoverIsUnbuilt(s, w, m);
    TurnRuns(s.db, p, s.disks[p.dir], m);
    if m.ClaimTask? { GrantedClaimIsFresh(s, m.id, p.name); }
    WorkMovesOne(s, w, m);
    MoveKeepsOnce(s.procs, s.past, w, Moved(p, m, t), t.note);
  }

  lemma OthersKeepOnce(s: State, a: Action)
    requires Once(s) && Enabled(s, a) && !a.Work?
    ensures Once(Do(s, EffectOf(s, a)))
  {
    var s' := Do(s, EffectOf(s, a));
    forall w | w in s'.procs ensures s'.procs[w] == s.procs[w] || s'.procs[w].pc.Down? {
    }
    NoteKeepsOnce(s.past, EffectOf(s, a).note, None);
  }

  lemma StepKeepsOnce(s: State, s': State)
    requires Inv(s) && Once(s) && OwnStep(s, s')
    ensures Once(s')
  {
    var a :| Own(a) && Enabled(s, a) && s' == Do(s, EffectOf(s, a));
    if a.Work? { WorkKeepsOnce(s, a.w, a.move); } else { OthersKeepOnce(s, a); }
  }

  lemma OwnRunsAreRuns(states: seq<State>)
    requires OwnRun(states)
    ensures Run(states)
  {
    forall i: nat | i + 1 < |states| ensures StepAt(states, i) {
      assert OwnStepAt(states, i);
    }
  }

  lemma {:induction false} OnceAlways(states: seq<State>, i: nat)
    requires OwnRun(states) && i < |states|
    ensures Inv(states[i]) && Once(states[i])
  {
    OwnRunsAreRuns(states);
    InvAlways(states, i);
    if i > 0 {
      OnceAlways(states, i - 1);
      assert OwnStepAt(states, i - 1);
      StepKeepsOnce(states[i - 1], states[i]);
    }
  }

  // ---------------------------------------------------------------- what follows

  /** This outcome was built for the claim the row of this id now belongs to, and is the one stored. */
  ghost predicate StoredFor(db: Db, id: string, c: Completion)
    requires id in db.rows
  {
    c.claim.task == id && Matches(db, c.claim) && SameOutcome(db.rows[id], c.outcome)
  }

  /** With other writers too, a terminal row of a claimed task stores an outcome built for exactly its claim. */
  lemma StoredOutcomesWereBuilt(states: seq<State>, i: nat, id: string)
    requires Run(states) && i < |states| && id in states[i].db.rows
    requires states[i].db.rows[id].started.Some? && IsTerminal(states[i].db.rows[id].status)
    ensures exists c :: c in states[i].past.built && StoredFor(states[i].db, id, c)
  {
    InvAlways(states, i);
  }

  /** A claim's outcome is built once. */
  lemma OneOutcomePerClaim(states: seq<State>, i: nat, c: Completion, c': Completion)
    requires OwnRun(states) && i < |states|
    requires c in states[i].past.built && c' in states[i].past.built && c.claim == c'.claim
    ensures c == c' && c.claim in states[i].past.granted
  {
    OnceAlways(states, i);
  }

  /**
    A terminal row stores exactly the outcome that was built for its claim: the one journaled, the
    one confirmed, and the one in any record of the claim in any workdir.
  */
  lemma TheBuiltOutcomeIsTheStoredOne(states: seq<State>, i: nat, c: Completion)
    requires OwnRun(states) && i < |states| && c in states[i].past.built
    requires Matches(states[i].db, c.claim) && IsTerminal(states[i].db.rows[c.claim.task].status)
    ensures SameOutcome(states[i].db.rows[c.claim.task], c.outcome)
  {
    OnceAlways(states, i);
    var s := states[i];
    var id := c.claim.task;
    var b :| b in s.past.built && b.claim.task == id && Matches(s.db, b.claim) && SameOutcome(s.db.rows[id], b.outcome);
    assert b.claim == c.claim;
  }

  /** What save returned, what was confirmed and what a visible record holds was built by a run. */
  lemma OnlyBuiltOutcomesTravel(states: seq<State>, i: nat, c: Completion, dir: nat)
    requires OwnRun(states) && i < |states|
    requires
      || Saved(dir, c) in states[i].past.saved
      || c in states[i].past.confirmed
      || (dir in states[i].disks && Decode(states[i].disks[dir], c.claim) == Some(c))
    ensures c in states[i].past.built
  {
    OnceAlways(states, i);
    if dir in states[i].disks && Decode(states[i].disks[dir], c.claim) == Some(c) {
      assert FsInv(states[i].disks[dir]) && FilesOk(states[i].disks[dir], states[i].past);
      DecodedIsBuilt(states[i].disks[dir], states[i].past, c.claim);
    }
  }
}

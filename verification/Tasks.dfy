/**
  The task table and the SQL statements that change it.

  Every statement is one atomic step.  The database clock strictly increases, so two
  statements that stamp NOW() never store the same time; time zero stands for Go's zero time.
*/
module Tasks {
  import opened Wrappers
  import Letters

  datatype Status = Pending | Running | Completed | Failed | Cancelled

  predicate IsTerminal(s: Status) {
    s.Completed? || s.Failed? || s.Cancelled?
  }

  /** One particular claim of one incarnation of a task id. */
  datatype Claim = Claim(task: string, worker: string, created: nat, started: nat)

  datatype Outcome = Outcome(status: Status, exitCode: int, finished: nat)

  /** A terminal outcome for one claim: db.TaskCompletion. */
  datatype Completion = Completion(claim: Claim, outcome: Outcome)

  datatype Row = Row(
    status: Status, created: nat, tags: map<string, string>,
    worker: Option<string>, started: Option<nat>,
    exitCode: Option<int>, finished: Option<nat>, cancelAt: Option<nat>)

  datatype Db = Db(rows: map<string, Row>, clock: nat)

  // ---------------------------------------------------------------- validation

  predicate AlphaNumeric(c: char) {
    'A' <= c <= 'Z' || 'a' <= c <= 'z' || '0' <= c <= '9'
  }

  predicate ValidTaskId(id: string) {
    1 <= |id| <= 53 && AlphaNumeric(id[0]) &&
    forall i :: 1 <= i < |id| ==> AlphaNumeric(id[i]) || id[i] == '_' || id[i] == '-'
  }

  predicate IdStart(c: char) {
    c in Letters.UPPER || c in Letters.LOWER || c in Letters.DIGITS
  }

  /** A task id has up to 53 letters and digits, and after the first also underscores and dashes. */
  lemma TaskIdsAre(id: string)
    ensures ValidTaskId(id) <==>
      id != "" && |id| < 54 && IdStart(id[0]) && forall i :: 0 < i < |id| ==> IdStart(id[i]) || id[i] == '_' || id[i] == '-'
  {
    forall i | 0 <= i < |id| ensures AlphaNumeric(id[i]) <==> IdStart(id[i]) {
      Letters.UpperIs(id[i]);
      Letters.LowerIs(id[i]);
      Letters.DigitsAre(id[i]);
    }
  }

  predicate Validate(c: Completion) {
    && ValidTaskId(c.claim.task)
    && c.claim.worker != "" && c.claim.created != 0 && c.claim.started != 0 && c.outcome.finished != 0
    && match c.outcome.status
       case Completed => c.outcome.exitCode == 0
       case Failed => c.outcome.exitCode != 0
       case Cancelled => c.outcome.exitCode != 0
       case _ => false
  }

  /** Valid: of a real claim, with a finish time, terminal, and completed if and only if the code is zero. */
  lemma ValidateIs(c: Completion)
    ensures
      var k, o := c.claim, c.outcome;
      var issued := ValidTaskId(k.task) && |k.worker| > 0 && k.created > 0 && k.started > 0;
      Validate(c) <==> issued && o.finished > 0 && !o.status.Pending? && !o.status.Running? && (o.status.Completed? <==> o.exitCode == 0)
  {
  }

  /** The outcome finishTask builds from an exit code and the cancellation flag. */
  function OutcomeOf(code: int, cancelled: bool, finished: nat): Outcome {
    if cancelled then Outcome(Cancelled, -1, finished)
    else Outcome(if code != 0 then Failed else Completed, code, finished)
  }

  /** Whatever a task returned, the outcome built for a real claim is one the journal and the database accept. */
  lemma BuiltOutcomesValidate(k: Claim, code: int, cancelled: bool, finished: nat)
    requires ValidTaskId(k.task) && k.worker != "" && k.created != 0 && k.started != 0 && finished != 0
    ensures Validate(Completion(k, OutcomeOf(code, cancelled, finished)))
    ensures OutcomeOf(code, cancelled, finished).status.Cancelled? <==> cancelled
    ensures OutcomeOf(code, cancelled, finished).status.Completed? <==> !cancelled && code == 0
    ensures OutcomeOf(code, cancelled, finished).exitCode == (if cancelled then -1 else code)
    ensures OutcomeOf(code, cancelled, finished).finished == finished
  {
  }

  // ---------------------------------------------------------------- statements

  datatype DbOp =
    | Nothing
    | Create(id: string, tags: map<string, string>)
    | Grant(id: string, worker: string)
    | Complete(completion: Completion)
    | Cancel(id: string)
    | Delete(id: string)

  predicate Matches(db: Db, k: Claim) {
    && k.task in db.rows
    && db.rows[k.task].worker == Some(k.worker)
    && db.rows[k.task].created == k.created
    && db.rows[k.task].started == Some(k.started)
  }

  predicate SameOutcome(row: Row, o: Outcome) {
    row.status == o.status && row.exitCode == Some(o.exitCode) && row.finished == Some(o.finished)
  }

  /** The answer of complete_claim.sql: it updated a running row, or that very outcome was already stored. */
  predicate Confirms(db: Db, c: Completion) {
    Matches(db, c.claim) && (db.rows[c.claim.task].status.Running? || SameOutcome(db.rows[c.claim.task], c.outcome))
  }

  predicate Cancellable(row: Row) {
    (row.status.Pending? || row.status.Running?) && row.cancelAt.None?
  }

  function CancelRow(row: Row, now: nat): Row {
    if row.status.Pending? then row.(status := Cancelled, finished := Some(now))
    else row.(cancelAt := Some(now))
  }

  /** Effect of one statement; a statement whose WHERE clause selects no row changes nothing. */
  function DbDo(db: Db, op: DbOp): Db {
    var now := db.clock + 1;
    match op
    case Nothing => db
    case Create(id, tags) =>
      if id in db.rows then db
      else Db(db.rows[id := Row(Pending, now, tags, None, None, None, None, None)], now)
    case Grant(id, worker) =>
      if id in db.rows && db.rows[id].status.Pending? then
        Db(db.rows[id := db.rows[id].(status := Running, worker := Some(worker), started := Some(now))], now)
      else db
    case Complete(c) =>
      if Matches(db, c.claim) && db.rows[c.claim.task].status.Running? then
        db.(rows := db.rows[c.claim.task := db.rows[c.claim.task].(
          status := c.outcome.status, exitCode := Some(c.outcome.exitCode), finished := Some(c.outcome.finished))])
      else db
    case Cancel(id) =>
      if id in db.rows && Cancellable(db.rows[id]) then
        Db(db.rows[id := CancelRow(db.rows[id], now)], now)
      else db
    case Delete(id) => db.(rows := db.rows - {id})
  }

  /** The row a claim statement hands back names this claim. */
  function GrantedClaim(db: Db, id: string, worker: string): Claim
    requires id in db.rows
  {
    Claim(id, worker, db.rows[id].created, db.clock + 1)
  }

  predicate CancelRequested(db: Db, id: string) {
    id in db.rows && db.rows[id].cancelAt.Some?
  }

  // ---------------------------------------------------------------- what each statement does

  /** Every row but this one stays as it is, and no other comes or goes. */
  ghost predicate OthersStay(db: Db, db': Db, id: string) {
    forall other :: other != id ==>
      (other in db.rows <==> other in db'.rows) && (other in db.rows ==> db.rows[other] == db'.rows[other])
  }

  /** The columns that no statement changes once the row is there, and those a claim sets. */
  predicate SameTask(r: Row, r': Row) {
    r'.created == r.created && r'.tags == r.tags
  }

  predicate SameClaim(r: Row, r': Row) {
    r'.worker == r.worker && r'.started == r.started
  }

  predicate SameEnd(r: Row, r': Row) {
    r'.exitCode == r.exitCode && r'.finished == r.finished
  }

  /** A new id gets a pending row of its own, younger than everything before. */
  predicate Created(db: Db, db': Db, id: string, tags: map<string, string>) {
    if id in db.rows then db' == db
    else
      && id in db'.rows && db'.rows[id].status.Pending? && db'.rows[id].tags == tags
      && db.clock < db'.rows[id].created <= db'.clock
      && db'.rows[id].worker.None? && db'.rows[id].started.None? && db'.rows[id].cancelAt.None?
      && db'.rows[id].exitCode.None? && db'.rows[id].finished.None?
  }

  /** A pending row is running for this worker from now on; any other is left alone. */
  predicate HandedOut(db: Db, db': Db, id: string, worker: string) {
    if !(id in db.rows && db.rows[id].status.Pending?) then db' == db
    else
      && id in db'.rows && db'.rows[id].status.Running? && db'.rows[id].worker == Some(worker)
      && db'.rows[id].started.Some? && db.clock < db'.rows[id].started.value <= db'.clock
      && SameTask(db.rows[id], db'.rows[id]) && SameEnd(db.rows[id], db'.rows[id]) && db'.rows[id].cancelAt == db.rows[id].cancelAt
  }

  /** The running row of this very claim gets the outcome; any other is left alone. */
  predicate Finished(db: Db, db': Db, c: Completion) {
    if !(Matches(db, c.claim) && db.rows[c.claim.task].status.Running?) then db' == db
    else
      && c.claim.task in db'.rows && SameOutcome(db'.rows[c.claim.task], c.outcome)
      && SameTask(db.rows[c.claim.task], db'.rows[c.claim.task]) && SameClaim(db.rows[c.claim.task], db'.rows[c.claim.task])
      && db'.rows[c.claim.task].cancelAt == db.rows[c.claim.task].cancelAt
  }

  /** A pending row is cancelled for good and never claimed; a running row gets its first request and runs on. */
  predicate Asked(db: Db, db': Db, id: string) {
    if !(id in db.rows && db.rows[id].cancelAt.None? && (db.rows[id].status.Pending? || db.rows[id].status.Running?)) then db' == db
    else
      && id in db'.rows && SameTask(db.rows[id], db'.rows[id]) && SameClaim(db.rows[id], db'.rows[id])
      && db'.rows[id].exitCode == db.rows[id].exitCode
      && if db.rows[id].status.Pending?
         then db'.rows[id].status.Cancelled? && IsNow(db, db', db'.rows[id].finished) && db'.rows[id].cancelAt.None?
         else db'.rows[id].status.Running? && IsNow(db, db', db'.rows[id].cancelAt) && db'.rows[id].finished == db.rows[id].finished
  }

  predicate IsNow(db: Db, db': Db, time: Option<nat>) {
    time.Some? && db.clock < time.value <= db'.clock
  }

  /** Column by column, what every statement leaves. */
  lemma StatementsAreExact(db: Db, op: DbOp)
    ensures match op
            case Nothing => DbDo(db, op) == db
            case Create(id, tags) => Created(db, DbDo(db, op), id, tags) && OthersStay(db, DbDo(db, op), id)
            case Grant(id, worker) => HandedOut(db, DbDo(db, op), id, worker) && OthersStay(db, DbDo(db, op), id)
            case Complete(c) => Finished(db, DbDo(db, op), c) && OthersStay(db, DbDo(db, op), c.claim.task)
            case Cancel(id) => Asked(db, DbDo(db, op), id) && OthersStay(db, DbDo(db, op), id)
            case Delete(id) => id !in DbDo(db, op).rows && OthersStay(db, DbDo(db, op), id)
    ensures op.Complete? || op.Delete? ==> DbDo(db, op).clock == db.clock
  {
  }

  // ---------------------------------------------------------------- what statements keep

  predicate RowInv(r: Row, clock: nat) {
    && 1 <= r.created <= clock
    && (r.worker.Some? <==> r.started.Some?)
    && (r.started.Some? ==> r.created < r.started.value <= clock)
    && (r.status.Pending? ==> r.started.None? && r.cancelAt.None?)
    && (r.status.Running? ==> r.started.Some?)
    && (r.cancelAt.Some? ==> r.started.Some? && r.started.value < r.cancelAt.value <= clock)
    && (IsTerminal(r.status) && r.started.Some? ==> r.exitCode.Some? && r.finished.Some?)
  }

  ghost predicate DbInv(db: Db) {
    forall id :: id in db.rows ==> ValidTaskId(id) && RowInv(db.rows[id], db.clock)
  }

  predicate OpOk(op: DbOp) {
    match op
    case Create(id, _) => ValidTaskId(id)
    case Complete(c) => Validate(c)
    case _ => true
  }

  lemma StatementsKeepDbInv(db: Db, op: DbOp)
    requires DbInv(db) && OpOk(op)
    ensures DbInv(DbDo(db, op))
  {
  }

  /** A claim whose times the database has already handed out. */
  predicate Past(db: Db, k: Claim) {
    k.created <= db.clock && k.started <= db.clock
  }

  /** Nothing more can be recorded for this claim: no row matches it, or the matching row is terminal. */
  predicate Settled(db: Db, k: Claim) {
    Matches(db, k) ==> IsTerminal(db.rows[k.task].status)
  }

  /** No statement ever makes an already issued claim open again, nor turns time back. */
  lemma SettledIsForever(db: Db, op: DbOp, k: Claim)
    requires Past(db, k) && OpOk(op)
    ensures Past(DbDo(db, op), k)
    ensures Settled(db, k) ==> Settled(DbDo(db, op), k)
    ensures !Matches(db, k) ==> !Matches(DbDo(db, op), k)
  {
  }

  /** An answer from complete_claim.sql, true or false, means the claim is settled. */
  lemma AnswerSettles(db: Db, c: Completion)
    requires DbInv(db) && Validate(c)
    ensures Settled(DbDo(db, Complete(c)), c.claim)
    ensures Confirms(db, c) ==>
      Matches(DbDo(db, Complete(c)), c.claim) && SameOutcome(DbDo(db, Complete(c)).rows[c.claim.task], c.outcome)
  {
  }

  /** A row leaves each state only along pending, running, terminal or pending, cancelled. */
  predicate Forward(from: Status, to: Status) {
    from == to || (from.Pending? && (to.Running? || to.Cancelled?)) || (from.Running? && IsTerminal(to))
  }

  /** What one incarnation of an id may become: later states only, and frozen once terminal. */
  predicate Descends(r: Row, r': Row) {
    && r'.created == r.created
    && (r.started.Some? ==> r'.started == r.started && r'.worker == r.worker)
    && (r.cancelAt.Some? ==> r'.cancelAt == r.cancelAt)
    && (IsTerminal(r.status) ==> r' == r)
    && (r.status.Running? ==> r'.status.Running? || IsTerminal(r'.status))
  }

  lemma StatementsMoveRowsForward(db: Db, op: DbOp, id: string)
    requires DbInv(db) && OpOk(op) && id in db.rows && id in DbDo(db, op).rows
    ensures Descends(db.rows[id], DbDo(db, op).rows[id])
    ensures Forward(db.rows[id].status, DbDo(db, op).rows[id].status)
  {
  }

  /** A completion reaches only the incarnation its claim names; every other row keeps all its columns. */
  lemma CompletionTouchesOnlyItsIncarnation(db: Db, c: Completion, id: string)
    requires id in db.rows
    requires id != c.claim.task || db.rows[id].created != c.claim.created || db.rows[id].started != Some(c.claim.started)
    ensures id in DbDo(db, Complete(c)).rows && DbDo(db, Complete(c)).rows[id] == db.rows[id]
  {
  }
}

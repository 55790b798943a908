/** The statements on the task table, as updates in place, and the order in which tasks are claimed. */
module TaskTable {
  import opened Wrappers
  import opened Tasks

  /** tags @> filter: every pair of the filter is among the tags. */
  predicate HasTags(tags: map<string, string>, filter: map<string, string>) {
    forall k :: k in filter ==> k in tags && tags[k] == filter[k]
  }

  predicate Claimable(rows: map<string, Row>, filter: map<string, string>, id: string) {
    id in rows && rows[id].status.Pending? && HasTags(rows[id].tags, filter)
  }

  /** Pending, and for every pair of the filter the task's tags hold the same; other tags do not matter. */
  lemma ClaimableIs(rows: map<string, Row>, filter: map<string, string>, id: string)
    ensures Claimable(rows, filter, id) <==> id in rows && rows[id].status == Pending && filter.Items <= rows[id].tags.Items
  {
    if id in rows && filter.Items <= rows[id].tags.Items {
      forall k | k in filter ensures k in rows[id].tags && rows[id].tags[k] == filter[k] {
        assert (k, filter[k]) in filter.Items;
      }
    }
  }

  /** The row a claim takes: no other claimable row is older. */
  predicate Oldest(rows: map<string, Row>, filter: map<string, string>, id: string) {
    && Claimable(rows, filter, id)
    && forall other :: other in rows && Claimable(rows, filter, other) ==> rows[id].created <= rows[other].created
  }

  class TaskTable {
    var rows: map<string, Row>
    var clock: nat

    constructor ()
      ensures Value() == Db(map[], 0)
    {
      rows, clock := map[], 0;
    }

    function Value(): Db
      reads this
    {
      Db(rows, clock)
    }

    /** INSERT: false if the id exists, and no change if it is not a task id. */
    method CreateTask(id: string, tags: map<string, string>) returns (created: bool)
      modifies this
      ensures created <==> ValidTaskId(id) && id !in old(rows)
      ensures Value() == if ValidTaskId(id) then DbDo(old(Value()), Create(id, tags)) else old(Value())
      ensures created ==> Created(old(Value()), Value(), id, tags) && OthersStay(old(Value()), Value(), id)
    {
      if !ValidTaskId(id) || id in rows { return false; }
      clock := clock + 1;
      rows := rows[id := Row(Pending, clock, tags, None, None, None, None, None)];
      return true;
    }

    /** The subquery of claim_task.sql: one scan for the oldest pending row with the tags. */
    method NextPending(filter: map<string, string>) returns (next: Option<string>)
      ensures next.None? <==> forall id :: id in rows ==> !Claimable(rows, filter, id)
      ensures next.Some? ==> Oldest(rows, filter, next.value)
    {
      next := None;
      var ids := rows.Keys;
      while ids != {}
        invariant ids <= rows.Keys
        invariant next.None? ==> forall id :: id in rows && id !in ids ==> !Claimable(rows, filter, id)
        invariant next.Some? ==> Claimable(rows, filter, next.value)
        invariant forall id :: next.Some? && id in rows && id !in ids && Claimable(rows, filter, id) ==>
          rows[next.value].created <= rows[id].created
        decreases |ids|
      {
        var id :| id in ids;
        if Claimable(rows, filter, id) && (next.None? || rows[id].created < rows[next.value].created) { next := Some(id); }
        ids := ids - {id};
      }
    }

    /** claim_task.sql: the oldest pending row with the tags becomes this worker's, or nothing changes. */
    method ClaimTask(worker: string, filter: map<string, string>) returns (claim: Option<Claim>)
      modifies this
      ensures claim.None? <==> forall id :: id in old(rows) ==> !Claimable(old(rows), filter, id)
      ensures claim.None? ==> Value() == old(Value())
      ensures claim.Some? ==>
        var id := claim.value.task;
        && Oldest(old(rows), filter, id)
        && claim.value == GrantedClaim(old(Value()), id, worker)
        && Value() == DbDo(old(Value()), Grant(id, worker))
        && Matches(Value(), claim.value)
        && HandedOut(old(Value()), Value(), id, worker) && OthersStay(old(Value()), Value(), id)
    {
      var next := NextPending(filter);
      if next.None? { return None; }
      clock := clock + 1;
      var id := next.value;
      rows := rows[id := rows[id].(status := Running, worker := Some(worker), started := Some(clock))];
      return Some(Claim(id, worker, rows[id].created, clock));
    }

    /** CompleteClaim: only the running row of that very claim is updated; an identical stored outcome is confirmed. */
    method CompleteClaim(c: Completion) returns (confirmed: Option<bool>)
      modifies this
      ensures confirmed.None? <==> !Validate(c)
      ensures confirmed.None? ==> Value() == old(Value())
      ensures confirmed.Some? ==> confirmed.value == Confirms(old(Value()), c) && Value() == DbDo(old(Value()), Complete(c))
      ensures confirmed.Some? ==> Finished(old(Value()), Value(), c) && OthersStay(old(Value()), Value(), c.claim.task)
    {
      if !Validate(c) { return None; }
      var id := c.claim.task;
      var original := id in rows && rows[id].worker == Some(c.claim.worker) && rows[id].created == c.claim.created
        && rows[id].started == Some(c.claim.started);
      if !original { return Some(false); }
      var same := SameOutcome(rows[id], c.outcome);
      if !rows[id].status.Running? { return Some(same); }
      rows := rows[id := rows[id].(status := c.outcome.status, exitCode := Some(c.outcome.exitCode), finished := Some(c.outcome.finished))];
      return Some(true);
    }

    /** request_cancel.sql: the status before the request, or None for an unknown task. */
    method RequestCancel(id: string) returns (status: Option<Status>)
      modifies this
      ensures status == if id in old(rows) then Some(old(rows)[id].status) else None
      ensures Value() == DbDo(old(Value()), Cancel(id))
      ensures Asked(old(Value()), Value(), id) && OthersStay(old(Value()), Value(), id)
    {
      if id !in rows { return None; }
      status := Some(rows[id].status);
      if (rows[id].status.Pending? || rows[id].status.Running?) && rows[id].cancelAt.None? {
        clock := clock + 1;
        rows := rows[id :=
          if rows[id].status.Pending? then rows[id].(status := Cancelled, finished := Some(clock))
          else rows[id].(cancelAt := Some(clock))];
      }
    }

    method DeleteTask(id: string) returns (deleted: bool)
      modifies this
      ensures deleted <==> id in old(rows)
      ensures Value() == DbDo(old(Value()), Delete(id))
      ensures id !in rows && OthersStay(old(Value()), Value(), id)
    {
      deleted := id in rows;
      rows := rows - {id};
    }
  }

  /** Repeating a completion, after any number of lost replies, confirms it and changes nothing more. */
  lemma CompletionIsIdempotent(db: Db, c: Completion)
    requires Validate(c)
    ensures
      var once := DbDo(db, Complete(c));
      && DbDo(once, Complete(c)) == once
      && (Confirms(once, c) <==> Confirms(db, c))
  {
    var once := DbDo(db, Complete(c));
    if Matches(db, c.claim) && db.rows[c.claim.task].status.Running? {
      assert once.rows[c.claim.task].worker == db.rows[c.claim.task].worker;
    }
  }
}

/**
  Waiting for tasks: a set of tasks is checked in rounds until all, or any, have finished.  What
  the database answers, which lines can be printed and what wakes the waiter are inputs; when an
  input is used up, the wait is interrupted.
*/
module Waiter {
  import opened Wrappers

  datatype Status = Pending | Running | Completed | Failed | Cancelled | Stale
  datatype Task = Task(status: Status, exitCode: Option<int>)

  datatype Fault = Transient | Fatal
  datatype Lookup = LookupFault(fault: Fault) | Answer(task: Option<Task>)
  /** A listing, and whether the new channels could be subscribed. */
  datatype Listing = ListFault(fault: Fault) | Listed(ids: seq<string>, subscribe: Option<Fault>)
  datatype Wake = Hint | ListenerClosed | Tick

  datatype Stop = Retry | Abort | NoTasks | Interrupted
  datatype End = Exit(code: int) | Error | NothingSelected | ListenerGone | Cancel

  /** One printed line; None is a task that does not exist. */
  datatype Report = Report(id: string, task: Option<Task>)

  predicate Terminal(status: Status) {
    status.Completed? || status.Failed? || status.Cancelled? || status.Stale?
  }

  function CodeOf(task: Option<Task>): int {
    match task
    case None => 1
    case Some(t) => if t.exitCode.Some? then t.exitCode.value else if t.status.Stale? then 1 else 0
  }

  /**
    The code of a task is its own exit code if it has one.  Without one it is 1 for a task that does
    not exist or whose worker is gone, and 0 for one cancelled before it ran.
  */
  lemma CodesAreTheTasks(task: Option<Task>)
    ensures task.Some? && task.value.exitCode.Some? ==> CodeOf(task) == task.value.exitCode.value
    ensures task.None? || task.value == Task(Stale, None) ==> CodeOf(task) == 1
    ensures CodeOf(task) == 0 <==>
      task.Some? && (task.value.exitCode == Some(0) || (task.value.exitCode.None? && !task.value.status.Stale?))
  {
  }

  function FirstNonZero(current: int, next: int): int {
    if current != 0 || next == 0 then current else next
  }

  /** The i-th report is the first whose code is not zero. */
  predicate FirstFailureAt(reports: seq<Report>, i: nat) {
    i < |reports| && CodeOf(reports[i].task) != 0 && forall j :: 0 <= j < i ==> CodeOf(reports[j].task) == 0
  }

  /** The first code in report order that is not zero, or zero. */
  function FirstFailure(reports: seq<Report>): int {
    if reports == [] then 0
    else if CodeOf(reports[0].task) != 0 then CodeOf(reports[0].task)
    else FirstFailure(reports[1..])
  }

  lemma {:induction false} FirstFailureIsFirst(reports: seq<Report>)
    ensures FirstFailure(reports) == 0 <==> forall i :: 0 <= i < |reports| ==> CodeOf(reports[i].task) == 0
    ensures forall i: nat :: FirstFailureAt(reports, i) ==> FirstFailure(reports) == CodeOf(reports[i].task)
    ensures FirstFailure(reports) != 0 ==> exists i: nat :: FirstFailureAt(reports, i)
  {
    if reports == [] {
    } else if CodeOf(reports[0].task) != 0 {
      assert FirstFailureAt(reports, 0);
    } else {
      FirstFailureIsFirst(reports[1..]);
      assert reports == [reports[0]] + reports[1..];
      forall i: nat | FirstFailureAt(reports, i) ensures FirstFailure(reports) == CodeOf(reports[i].task) {
        assert FirstFailureAt(reports[1..], i - 1);
      }
      if FirstFailure(reports) != 0 {
        var i: nat :| FirstFailureAt(reports[1..], i);
        assert FirstFailureAt(reports, i + 1);
      }
    }
  }

  lemma {:induction false} OneMoreReport(reports: seq<Report>, last: Report)
    ensures FirstFailure(reports + [last]) == FirstNonZero(FirstFailure(reports), CodeOf(last.task))
  {
    var all := reports + [last];
    if reports == [] {
      assert all[1..] == [];
    } else {
      assert all[0] == reports[0] && all[1..] == reports[1..] + [last];
      OneMoreReport(reports[1..], last);
    }
  }

  /** Two reports are about different tasks. */
  predicate Apart(reports: seq<Report>, i: nat, j: nat)
    requires i < |reports| && j < |reports|
  {
    reports[i].id != reports[j].id
  }

  /** A report is about a task that is over, or does not exist. */
  predicate Closed(reports: seq<Report>, i: nat)
    requires i < |reports|
  {
    reports[i].task.Some? ==> Terminal(reports[i].task.value.status)
  }

  function Reported(reports: seq<Report>): set<string> {
    set i | 0 <= i < |reports| :: reports[i].id
  }

  lemma ReportedGrows(reports: seq<Report>, last: Report)
    ensures Reported(reports + [last]) == Reported(reports) + {last.id}
  {
    var all := reports + [last];
    assert all[|reports|] == last;
    assert forall i :: 0 <= i < |reports| ==> all[i] == reports[i];
    forall id | id in Reported(reports) ensures id in Reported(all) {
      var i :| 0 <= i < |reports| && reports[i].id == id;
      assert all[i].id == id;
    }
  }

  function Elements(ids: seq<string>): set<string> {
    set id | id in ids
  }

  lemma ElementsGrow(ids: seq<string>, id: string)
    ensures Elements(ids + [id]) == Elements(ids) + {id}
  {
  }

  /** The first i of these tasks were added to what was seen and open before. */
  predicate Added(was: set<string>, open: set<string>, seen: set<string>, remaining: set<string>, ids: seq<string>, i: nat)
    requires i <= |ids|
  {
    seen == was + Elements(ids[..i]) && remaining == open + (seen - was)
  }

  lemma AddedOneMore(was: set<string>, open: set<string>, seen: set<string>, remaining: set<string>, ids: seq<string>, i: nat)
    requires i < |ids| && Added(was, open, seen, remaining, ids, i)
    ensures Added(was, open, seen + {ids[i]}, if ids[i] in seen then remaining else remaining + {ids[i]}, ids, i + 1)
  {
    ElementsGrow(ids[..i], ids[i]);
    assert ids[..i + 1] == ids[..i] + [ids[i]];
    assert ids[i] in seen ==> seen + {ids[i]} == seen;
  }

  /** An answer that ends the wait for its task. */
  predicate Over(lookup: Lookup) {
    lookup.Answer? && (lookup.task.None? || Terminal(lookup.task.value.status))
  }

  /** The reports that the first n answers call for: one for each final answer, about the task that was asked for. */
  function Final(asked: seq<string>, answers: seq<Lookup>, n: nat): seq<Report>
    requires n <= |asked| && n <= |answers|
  {
    if n == 0 then []
    else Final(asked, answers, n - 1) + (if Over(answers[n - 1]) then [Report(asked[n - 1], answers[n - 1].task)] else [])
  }

  lemma {:induction false} FinalIsKept(asked: seq<string>, id: string, answers: seq<Lookup>, n: nat)
    requires n <= |asked| && n <= |answers|
    ensures Final(asked + [id], answers, n) == Final(asked, answers, n)
  {
    if n > 0 { FinalIsKept(asked, id, answers, n - 1); }
  }

  lemma {:induction false} FinalHolds(asked: seq<string>, answers: seq<Lookup>, n: nat, j: nat)
    requires j < n <= |asked| && n <= |answers| && Over(answers[j])
    ensures Report(asked[j], answers[j].task) in Final(asked, answers, n)
  {
    if j < n - 1 { FinalHolds(asked, answers, n - 1, j); }
  }

  /** The waiting tasks from the i-th on, in order. */
  function ToAsk(order: seq<string>, remaining: set<string>, i: nat): seq<string>
    requires i <= |order|
    decreases |order| - i
  {
    if i == |order| then [] else (if order[i] in remaining then [order[i]] else []) + ToAsk(order, remaining, i + 1)
  }

  lemma {:induction false} EarlierTasksDoNotCount(order: seq<string>, remaining: set<string>, id: string, i: nat)
    requires i <= |order| && forall j :: i <= j < |order| ==> order[j] != id
    ensures ToAsk(order, remaining - {id}, i) == ToAsk(order, remaining, i)
    decreases |order| - i
  {
    if i < |order| { EarlierTasksDoNotCount(order, remaining, id, i + 1); }
  }

  lemma {:induction false} ToAskHoldsExactly(order: seq<string>, remaining: set<string>, i: nat, id: string)
    requires i <= |order|
    ensures id in ToAsk(order, remaining, i) <==> id in remaining && id in order[i..]
    decreases |order| - i
  {
    if i < |order| {
      ToAskHoldsExactly(order, remaining, i + 1, id);
      assert order[i..] == [order[i]] + order[i + 1..];
    }
  }

  class Waiter {
    const any: bool
    const byTag: bool
    /** Everything the database is going to answer, in order. */
    const answers: seq<Lookup>
    var remaining: set<string>
    var seen: set<string>
    var order: seq<string>
    var failCode: int
    var lookups: seq<Lookup>
    var listings: seq<Listing>
    var prints: seq<bool>
    ghost var reports: seq<Report>
    /** The tasks that were asked for, one for each answer used up. */
    ghost var asked: seq<string>
    /** The task whose line could not be printed; the wait ends there. */
    ghost var lost: set<string>

    /**
      Every seen task is waiting, reported once, or lost, and never two of these; and the reports
      are the final answers of the database, in order, about the tasks that were asked for.
    */
    ghost predicate Valid()
      reads this
    {
      Sets() && Answered()
    }

    ghost predicate Sets()
      reads this`remaining, this`seen, this`order, this`failCode, this`reports, this`lost
    {
      Partition(seen, remaining, reports, lost) && Ordered(seen, order) && failCode == FirstFailure(reports)
    }

    static ghost predicate Partition(seen: set<string>, remaining: set<string>, reports: seq<Report>, lost: set<string>) {
      && seen == remaining + Reported(reports) + lost
      && remaining !! Reported(reports) && remaining !! lost && Reported(reports) !! lost
      && (forall i: nat, j: nat {:trigger Apart(reports, i, j)} :: i < j < |reports| ==> Apart(reports, i, j))
      && (forall i: nat {:trigger Closed(reports, i)} :: i < |reports| ==> Closed(reports, i))
    }

    static ghost predicate Ordered(seen: set<string>, order: seq<string>) {
      seen == Elements(order) && forall i, j :: 0 <= i < j < |order| ==> order[i] != order[j]
    }

    ghost predicate Answered()
      reads this`seen, this`lookups, this`reports, this`asked, this`lost
    {
      AsAnswered(answers, lookups, asked, seen, reports, lost)
    }

    static ghost predicate AsAnswered(answers: seq<Lookup>, lookups: seq<Lookup>, asked: seq<string>, seen: set<string>,
      reports: seq<Report>, lost: set<string>)
    {
      && |asked| <= |answers| && lookups == answers[|asked|..]
      && Elements(asked) <= seen
      && if lost == {} then reports == Final(asked, answers, |asked|)
         else asked != [] && Over(answers[|asked| - 1]) && lost == {asked[|asked| - 1]} && reports == Final(asked, answers, |asked| - 1)
    }

    constructor (any: bool, ids: seq<string>, lookups: seq<Lookup>, listings: seq<Listing>, prints: seq<bool>)
      ensures Valid() && this.any == any && byTag == (ids == [])
      ensures seen == remaining == Elements(ids)
      ensures reports == [] && lost == {} && asked == [] && answers == lookups
    {
      this.any, byTag := any, ids == [];
      remaining, seen, order, failCode := {}, {}, [], 0;
      this.answers, this.lookups, this.listings, this.prints := lookups, lookups, listings, prints;
      reports, asked, lost := [], [], {};
      new;
      AddAll(ids);
    }

    method AddAll(ids: seq<string>)
      requires Valid()
      modifies this`remaining, this`seen, this`order
      ensures Valid()
      ensures seen == old(seen) + Elements(ids)
      ensures remaining == old(remaining) + (seen - old(seen))
    {
      ghost var was, open := seen, remaining;
      var i := 0;
      while i < |ids|
        invariant i <= |ids| && Valid() && Added(was, open, seen, remaining, ids, i)
      {
        AddedOneMore(was, open, seen, remaining, ids, i);
        Add(ids[i]);
        i := i + 1;
      }
      assert ids[..|ids|] == ids;
    }

    method Add(id: string)
      requires Valid()
      modifies this`remaining, this`seen, this`order
      ensures Valid()
      ensures seen == old(seen) + {id}
      ensures remaining == if id in old(seen) then old(remaining) else old(remaining) + {id}
      ensures order == if id in old(seen) then old(order) else old(order) + [id]
    {
      if id !in seen {
        ElementsGrow(order, id);
        assert forall i :: 0 <= i < |order| ==> order[i] in Elements(order);
        seen, remaining, order := seen + {id}, remaining + {id}, order + [id];
      }
    }

    /** The size of the answers not used yet; every retry uses one up. */
    ghost function Budget(): nat
      reads this
    {
      |lookups| + |listings|
    }

    /** discover: list the tasks with the tags, subscribe to new ones, then add them all. */
    method Discover() returns (r: Result<(), Stop>)
      requires Valid()
      modifies this`remaining, this`seen, this`order, this`listings
      ensures Valid()
      ensures old(seen) <= seen && remaining == old(remaining) + (seen - old(seen))
      ensures r.Err? ==> seen == old(seen)
      ensures r.Ok? <==> Complete(old(listings))
      ensures r.Ok? ==> Found(old(listings), listings, seen) && Learned(old(listings), old(seen), seen)
      ensures Suffix(listings, old(listings))
      ensures r != Err(NoTasks) && (r.Err? ==> ListingStops(old(listings), r.error))
      ensures r == Err(Retry) ==> Budget() < old(Budget())
      ensures Budget() <= old(Budget())
    {
      if listings == [] { return Err(Interrupted); }
      var listing := listings[0];
      listings := listings[1..];
      match listing {
        case ListFault(fault) => return Err(if fault.Transient? then Retry else Abort);
        case Listed(ids, subscribe) =>
          if subscribe.Some? { return Err(if subscribe.value.Transient? then Retry else Abort); }
          AddAll(ids);
          return Ok(());
      }
    }

    /** The next listing works, and the new channels can be subscribed. */
    static predicate Complete(listings: seq<Listing>) {
      listings != [] && listings[0].Listed? && listings[0].subscribe.None?
    }

    /** The next listing, or the subscription to what it found, ends in this way. */
    static predicate ListingStops(listings: seq<Listing>, why: Stop) {
      match why
      case Interrupted => listings == []
      case Retry => listings != [] && Faulty(listings[0], Transient)
      case Abort => listings != [] && Faulty(listings[0], Fatal)
      case NoTasks => false
    }

    static predicate Faulty(listing: Listing, fault: Fault) {
      match listing
      case ListFault(f) => f == fault
      case Listed(_, subscribe) => subscribe == Some(fault)
    }

    /** Among these listings, used up or not, is the reason for the end. */
    static predicate SomeListingStops(before: seq<Listing>, after: seq<Listing>, why: Stop) {
      match why
      case Interrupted => after == []
      case Abort => exists i :: 0 <= i < |before| && Faulty(before[i], Fatal)
      case _ => false
    }

    /** Exactly the listed tasks were added. */
    static predicate Learned(before: seq<Listing>, oldSeen: set<string>, seen: set<string>) {
      before != [] && before[0].Listed? && seen == oldSeen + Elements(before[0].ids)
    }

    /** The last listing used up was complete, and all of it is seen. */
    static predicate Found(before: seq<Listing>, after: seq<Listing>, seen: set<string>) {
      && |after| < |before| && before[|before| - |after| - 1].Listed?
      && Elements(before[|before| - |after| - 1].ids) <= seen
    }

    /** One more answer is used up, and if it is final its report is made, or lost. */
    static lemma AnsweredMore(answers: seq<Lookup>, lookups: seq<Lookup>, asked: seq<string>, seen: set<string>, reports: seq<Report>, id: string)
      requires AsAnswered(answers, lookups, asked, seen, reports, {}) && lookups != [] && id in seen
      ensures !Over(lookups[0]) ==> AsAnswered(answers, lookups[1..], asked + [id], seen, reports, {})
      ensures Over(lookups[0]) ==>
        && AsAnswered(answers, lookups[1..], asked + [id], seen, reports + [Report(id, lookups[0].task)], {})
        && AsAnswered(answers, lookups[1..], asked + [id], seen, reports, {id})
    {
      FinalIsKept(asked, id, answers, |asked|);
      ElementsGrow(asked, id);
      assert answers[|asked|] == lookups[0] && answers[|asked| + 1..] == lookups[1..];
    }

    /** An answer that is not final is used up. */
    method Skip(id: string)
      requires Valid() && lost == {} && id in remaining && lookups != [] && !Over(lookups[0])
      modifies this`lookups, this`asked
      ensures Valid() && lookups == old(lookups)[1..] && asked == old(asked) + [id]
    {
      AnsweredMore(answers, lookups, asked, seen, reports, id);
      lookups, asked := lookups[1..], asked + [id];
    }

    /** One finished or unknown task leaves the waiting set, and its line is printed. */
    method Tell(id: string, task: Option<Task>) returns (ok: bool)
      requires Sets() && lost == {} && id in remaining && (task.Some? ==> Terminal(task.value.status))
      modifies this`remaining, this`failCode, this`prints, this`reports, this`lost
      ensures Sets() && remaining == old(remaining) - {id}
      ensures prints == if old(prints) == [] then [] else old(prints)[1..]
      ensures ok <==> old(prints) == [] || old(prints)[0]
      ensures if ok then reports == old(reports) + [Report(id, task)] && lost == {} else reports == old(reports) && lost == {id}
    {
      remaining := remaining - {id};
      var printed := prints == [] || prints[0];
      if prints != [] { prints := prints[1..]; }
      if !printed {
        lost := {id};
        return false;
      }
      ReportedGrows(reports, Report(id, task));
      OneMoreReport(reports, Report(id, task));
      ghost var earlier := reports;
      reports := reports + [Report(id, task)];
      forall i: nat, j: nat | i < j < |reports| ensures Apart(reports, i, j) {
        if j < |earlier| { assert Apart(earlier, i, j); } else { assert earlier[i].id in Reported(earlier); }
      }
      forall i: nat | i < |reports| ensures Closed(reports, i) {
        if i < |earlier| { assert Closed(earlier, i); }
      }
      failCode := FirstNonZero(failCode, CodeOf(task));
      return true;
    }

    /** A final answer is used up, and its task is done with. */
    method Finish(id: string) returns (ok: bool)
      requires Valid() && lost == {} && id in remaining && lookups != [] && Over(lookups[0])
      modifies this`remaining, this`failCode, this`prints, this`reports, this`lost, this`lookups, this`asked
      ensures Valid() && lookups == old(lookups)[1..] && asked == old(asked) + [id]
      ensures remaining == old(remaining) - {id} && prints == if old(prints) == [] then [] else old(prints)[1..]
      ensures ok <==> old(prints) == [] || old(prints)[0]
      ensures if ok then reports == old(reports) + [Report(id, old(lookups)[0].task)] && lost == {} else reports == old(reports) && lost == {id}
    {
      AnsweredMore(answers, lookups, asked, seen, reports, id);
      ok := Tell(id, lookups[0].task);
      lookups, asked := lookups[1..], asked + [id];
    }

    static predicate AllPrinted(prints: seq<bool>) {
      forall i :: 0 <= i < |prints| ==> prints[i]
    }

    /** One waiting task: ask for it, and report it if its answer is final; true if it was reported. */
    method LookAt(id: string) returns (r: Result<bool, Stop>)
      requires Valid() && lost == {} && id in remaining
      modifies this`remaining, this`failCode, this`prints, this`reports, this`lost, this`lookups, this`asked
      ensures Valid() && (AllPrinted(old(prints)) ==> AllPrinted(prints) && lost == {})
      ensures if old(lookups) == [] then r == Err(Interrupted) && lookups == [] && asked == old(asked)
        else lookups == old(lookups)[1..] && asked == old(asked) + [id] && Follows(old(lookups)[0], r, lost, id)
      ensures if r == Ok(true) then reports == old(reports) + [Report(id, old(lookups)[0].task)] else reports == old(reports)
      ensures remaining == if r == Ok(true) || lost != {} then old(remaining) - {id} else old(remaining)
      ensures r.Ok? || r.error != Abort ==> lost == {}
    {
      if lookups == [] { return Err(Interrupted); }
      var lookup := lookups[0];
      if Over(lookup) {
        var ok := Finish(id);
        return if ok then Ok(true) else Err(Abort);
      }
      Skip(id);
      if lookup.LookupFault? { return Err(if lookup.fault.Transient? then Retry else Abort); }
      return Ok(false);
    }

    /** What becomes of one answer. */
    static predicate Follows(lookup: Lookup, r: Result<bool, Stop>, lost: set<string>, id: string) {
      match lookup
      case LookupFault(fault) => r == Err(if fault.Transient? then Retry else Abort) && lost == {}
      case Answer(_) => if Over(lookup) then (r == Ok(true) && lost == {}) || (r == Err(Abort) && lost == {id}) else r == Ok(false) && lost == {}
    }

    /** Before the i-th turn of check: the tasks asked for so far and those still to be asked for are the ones due at its start. */
    ghost predicate Looking(was: seq<string>, due: seq<string>, told: seq<Report>, open: set<string>, i: nat)
      requires i <= |order|
      reads this`asked, this`order, this`remaining, this`reports
    {
      && was <= asked && asked + ToAsk(order, remaining, i) == was + due
      && AllAnswers(|was|, |asked|)
      && told <= reports && (reports == told ==> remaining == open)
    }

    predicate AllAnswers(from: nat, to: nat) {
      forall j :: from <= j < to && j < |answers| ==> answers[j].Answer?
    }

    /** One turn of the loop of check; true if the i-th task was reported. */
    method Turn(i: nat, ghost was: seq<string>, ghost due: seq<string>, ghost told: seq<Report>, ghost open: set<string>,
      ghost printing: bool) returns (r: Result<bool, Stop>)
      requires Valid() && lost == {} && i < |order| && Looking(was, due, told, open, i) && (printing ==> AllPrinted(prints))
      modifies this`remaining, this`failCode, this`prints, this`reports, this`lost, this`lookups, this`asked
      ensures Valid() && (printing ==> AllPrinted(prints) && lost == {}) && r != Err(NoTasks)
      ensures was <= asked <= was + due && told <= reports && |lookups| + |asked| == old(|lookups| + |asked|)
      ensures r.Ok? ==> lost == {} && Looking(was, due, told, open, i + 1)
      ensures if r == Ok(true) then |asked| > |was| && Over(answers[|asked| - 1]) && |reports| == |old(reports)| + 1 else reports == old(reports)
      ensures r.Err? ==> Stopped(r.error) && (r.error == Retry ==> |asked| > |was|)
    {
      var id := order[i];
      if id !in remaining { return Ok(false); }
      EarlierTasksDoNotCount(order, remaining, id, i + 1);
      assert asked + ToAsk(order, remaining, i) == (asked + [id]) + ToAsk(order, remaining, i + 1);
      r := LookAt(id);
    }

    /** Why a check stops in the middle: the answers are used up, the last one is a fault, or its line could not be printed. */
    ghost predicate Stopped(why: Stop)
      reads this
    {
      match why
      case Interrupted => lookups == [] && lost == {}
      case Retry => asked != [] && |asked| <= |answers| && answers[|asked| - 1] == LookupFault(Transient) && lost == {}
      case Abort => lost != {} || (asked != [] && |asked| <= |answers| && answers[|asked| - 1] == LookupFault(Fatal))
      case NoTasks => false
    }

    /** The loop of check; true when it stops early, at the first report with `any`. */
    method LookAtAll() returns (r: Result<bool, Stop>)
      requires Valid() && lost == {}
      modifies this`remaining, this`failCode, this`prints, this`reports, this`lost, this`lookups, this`asked
      ensures Valid() && (AllPrinted(old(prints)) ==> AllPrinted(prints) && lost == {})
      ensures old(asked) <= asked <= old(asked) + ToAsk(order, old(remaining), 0) && |lookups| + |asked| == old(|lookups| + |asked|)
      ensures r == Ok(false) ==> asked == old(asked) + ToAsk(order, old(remaining), 0)
      ensures r.Ok? ==> lost == {} && AllAnswers(|old(asked)|, |asked|)
      ensures r == Ok(true) ==> any && |asked| > |old(asked)| && Over(answers[|asked| - 1]) && |reports| == |old(reports)| + 1
      ensures any && r != Ok(true) ==> reports == old(reports)
      ensures r.Err? ==> Stopped(r.error) && (r.error == Retry ==> |asked| > |old(asked)|)
      ensures old(reports) <= reports && (r.Ok? && reports == old(reports) ==> remaining == old(remaining))
    {
      ghost var was, due, told, open := asked, ToAsk(order, remaining, 0), reports, remaining;
      ghost var printing, all := AllPrinted(prints), |lookups| + |asked|;
      var i := 0;
      while i < |order|
        invariant i <= |order| && Valid() && lost == {} && (printing ==> AllPrinted(prints))
        invariant Looking(was, due, told, open, i) && |lookups| + |asked| == all
        invariant any ==> reports == told
      {
        r := Turn(i, was, due, told, open, printing);
        if r.Err? || (r.value && any) { return; }
        i := i + 1;
      }
      assert ToAsk(order, remaining, i) == [] && asked + [] == asked;
      return Ok(false);
    }

    /**
      check: ask for every waiting task in order, and report each as the database answers.  A fault
      in the middle keeps what was reported, so that a retry asks only for the others.
    */
    method Check() returns (r: Result<bool, Stop>)
      requires Valid() && lost == {} && (any ==> reports == [])
      modifies this`remaining, this`failCode, this`prints, this`reports, this`lost, this`lookups, this`asked
      ensures Valid() && (AllPrinted(old(prints)) ==> AllPrinted(prints) && lost == {})
      ensures old(asked) <= asked <= old(asked) + ToAsk(order, old(remaining), 0)
      ensures r.Ok? && !(any && r.value && old(remaining) != {}) ==> asked == old(asked) + ToAsk(order, old(remaining), 0)
      ensures r.Ok? ==> lost == {} && (r.value <==> remaining == {} || (any && |reports| == 1))
      ensures r.Ok? ==> AllAnswers(|old(asked)|, |asked|)
      ensures r.Err? ==> Stopped(r.error)
      ensures old(reports) <= reports
      ensures any ==> if r == Ok(true) && old(remaining) != {} then |reports| == 1 else reports == []
      ensures r == Err(Retry) ==> |asked| > |old(asked)|
      ensures |lookups| + |asked| == old(|lookups| + |asked|) && remaining <= old(remaining)
    {
      var early := LookAtAll();
      if early.Err? || early.value { return early; }
      return Ok(remaining == {});
    }

    /** The task was asked for since then, and its answer was not final. */
    ghost predicate FoundOpen(id: string, from: nat)
      reads this
    {
      exists j :: from <= j < |asked| && j < |answers| && asked[j] == id && answers[j].Answer? && !Over(answers[j])
    }

    /** A full check that goes on has found every task open that is still waiting. */
    lemma WaitingWereFoundOpen(was: seq<string>, open: set<string>)
      requires Valid() && lost == {} && remaining <= open && AllAnswers(|was|, |asked|)
      requires asked == was + ToAsk(order, open, 0)
      ensures forall id :: id in remaining ==> FoundOpen(id, |was|)
    {
      forall id | id in remaining ensures FoundOpen(id, |was|) {
        ToAskHoldsExactly(order, open, 0, id);
        assert order[0..] == order && id in Elements(order);
        var asks := ToAsk(order, open, 0);
        var i :| 0 <= i < |asks| && asks[i] == id;
        var j := |was| + i;
        assert asked[j] == id;
        if Over(answers[j]) { FinalAnswersAreReported(j); }
      }
    }

    /** A final answer has taken its task off the waiting set. */
    lemma FinalAnswersAreReported(j: nat)
      requires Valid() && lost == {} && j < |asked| && Over(answers[j])
      ensures asked[j] in Reported(reports) && asked[j] !in remaining
    {
      FinalHolds(asked, answers, |asked|, j);
      var i :| 0 <= i < |reports| && reports[i] == Report(asked[j], answers[j].task);
      assert reports[i].id in Reported(reports);
    }

    /** The check that is repeated: with tags, first look for tasks that appeared since. */
    method Round() returns (r: Result<bool, Stop>)
      requires Valid() && lost == {} && (any ==> reports == [])
      modifies this
      ensures Valid() && Kept(old(seen), old(reports), old(lost), r == Err(Abort)) && old(asked) <= asked
      ensures AllPrinted(old(prints)) ==> AllPrinted(prints) && lost == {}
      ensures r.Ok? ==> (r.value <==> remaining == {} || (any && |reports| == 1))
      ensures r.Ok? && byTag ==> seen != {} && Found(old(listings), listings, seen)
      ensures r == Ok(false) ==> forall id :: id in remaining ==> FoundOpen(id, |old(asked)|)
      ensures any ==> if r == Ok(true) && seen != {} then |reports| == 1 else reports == []
      ensures Suffix(listings, old(listings))
      ensures r == Err(Retry) ==> Budget() < old(Budget())
      ensures Budget() <= old(Budget())
      ensures !byTag ==> seen == old(seen) && listings == old(listings) && r != Err(NoTasks)
      ensures r == Err(NoTasks) ==> seen == {}
      ensures r.Err? ==> Stopped(r.error) || (byTag && (r == Err(NoTasks) || ListingStops(old(listings), r.error)))
    {
      if any { assert Reported(reports) == {}; }
      if byTag {
        var found := Discover();
        if found.Err? { return Err(found.error); }
        if seen == {} { return Err(NoTasks); }
      }
      r := CheckFound();
    }

    /** A check, and what it says of the tasks still waiting. */
    method CheckFound() returns (r: Result<bool, Stop>)
      requires Valid() && lost == {} && (any ==> reports == [])
      modifies this`remaining, this`failCode, this`prints, this`reports, this`lost, this`lookups, this`asked
      ensures Valid() && (AllPrinted(old(prints)) ==> AllPrinted(prints) && lost == {})
      ensures old(asked) <= asked && old(reports) <= reports
      ensures r.Ok? ==> lost == {} && (r.value <==> remaining == {} || (any && |reports| == 1))
      ensures r == Ok(false) ==> forall id :: id in remaining ==> FoundOpen(id, |old(asked)|)
      ensures r.Err? ==> Stopped(r.error)
      ensures any ==> if r == Ok(true) && old(remaining) != {} then |reports| == 1 else reports == []
      ensures |lookups| + |asked| == old(|lookups| + |asked|) && (r == Err(Retry) ==> |asked| > |old(asked)|)
    {
      ghost var was, open := asked, remaining;
      r := Check();
      if r == Ok(false) { WaitingWereFoundOpen(was, open); }
    }

    /** Nothing seen or reported is ever taken back, and only a failed print loses a task. */
    ghost predicate Kept(oldSeen: set<string>, oldReports: seq<Report>, oldLost: set<string>, aborted: bool)
      reads this
    {
      && oldSeen <= seen
      && oldReports <= reports
      && oldLost <= lost && (!aborted ==> lost == oldLost)
    }

    /** RetryValue around the check: transient faults are tried again, with whatever was reported kept. */
    method Retried() returns (r: Result<bool, Stop>)
      requires Valid() && lost == {} && (any ==> reports == [])
      modifies this
      ensures Valid() && Kept(old(seen), old(reports), old(lost), r == Err(Abort)) && r != Err(Retry)
      ensures Suffix(listings, old(listings))
      ensures r.Ok? ==> (r.value <==> remaining == {} || (any && |reports| == 1))
      ensures r.Ok? && byTag ==> seen != {} && Found(old(listings), listings, seen)
      ensures any ==> if r == Ok(true) && seen != {} then |reports| == 1 else reports == []
      ensures !byTag ==> seen == old(seen) && listings == old(listings) && r != Err(NoTasks)
      ensures r == Err(NoTasks) ==> seen == {}
      ensures old(asked) <= asked && (AllPrinted(old(prints)) ==> AllPrinted(prints) && lost == {})
      ensures r == Ok(false) ==> forall id :: id in remaining ==> FoundOpen(id, |old(asked)|)
      ensures r.Err? ==> Stopped(r.error) || (byTag && (r == Err(NoTasks) || SomeListingStops(old(listings), listings, r.error)))
      decreases Budget()
    {
      r := Round();
      if r == Err(Retry) {
        ghost var middle, was := listings, |asked|;
        r := Retried();
        OpenStill(old(|asked|), was);
        FromEarlier(old(listings), middle, listings, seen);
      }
    }

    /** What holds since some point holds since any earlier one. */
    static lemma FromEarlier(before: seq<Listing>, middle: seq<Listing>, after: seq<Listing>, seen: set<string>)
      requires Suffix(middle, before) && Suffix(after, middle)
      ensures Suffix(after, before) && (Found(middle, after, seen) ==> Found(before, after, seen))
      ensures forall why :: SomeListingStops(middle, after, why) ==> SomeListingStops(before, after, why)
    {
      SuffixesChain(after, middle, before);
      if Found(middle, after, seen) { LaterFound(before, middle, after, seen); }
      forall why | SomeListingStops(middle, after, why) ensures SomeListingStops(before, after, why) {
        StopsFromEarlier(before, middle, after, why);
      }
    }

    static lemma StopsFromEarlier(before: seq<Listing>, middle: seq<Listing>, after: seq<Listing>, why: Stop)
      requires Suffix(middle, before)
      ensures SomeListingStops(middle, after, why) ==> SomeListingStops(before, after, why)
    {
      if why.Abort? && SomeListingStops(middle, after, why) {
        var i :| 0 <= i < |middle| && Faulty(middle[i], Fatal);
        assert before[|before| - |middle|..][i] == before[|before| - |middle| + i];
      }
    }

    lemma OpenStill(from: nat, later: nat)
      requires from <= later
      ensures forall id :: FoundOpen(id, later) ==> FoundOpen(id, from)
    {
      forall id | FoundOpen(id, later) ensures FoundOpen(id, from) {
        var j :| later <= j < |asked| && j < |answers| && asked[j] == id && answers[j].Answer? && !Over(answers[j]);
        assert from <= j;
      }
    }

    /** Whatever the listing used up last was, it counts from any earlier point. */
    static lemma LaterFound(before: seq<Listing>, middle: seq<Listing>, after: seq<Listing>, seen: set<string>)
      requires Suffix(middle, before) && Found(middle, after, seen)
      ensures Found(before, after, seen)
    {
      var k := |middle| - |after| - 1;
      assert before[|before| - |middle|..][k] == before[|before| - |middle| + k];
    }

    static predicate Suffix(after: seq<Listing>, before: seq<Listing>) {
      |after| <= |before| && before[|before| - |after|..] == after
    }

    /**
      The whole wait.  It exits only when every selected task was reported exactly once, or with
      `any` after exactly one report, and its code is the first failure in report order: the
      reports are the final answers of the database about the tasks that were asked for.  With
      tags, the selection includes everything in the last listing.  A closed listener ends the
      wait with an error only after one more check still found waiting tasks.
    */
    method Run(wakes: seq<Wake>) returns (end: End, waited: nat)
      requires Valid() && lost == {} && reports == [] && asked == [] && (!byTag ==> seen != {})
      modifies this
      ensures Valid() && old(seen) <= seen && (!byTag ==> seen == old(seen))
      ensures end.Exit? ==> lost == {} && reports == Final(asked, answers, |asked|)
      ensures end.Exit? ==> end.code == FirstFailure(Final(asked, answers, |asked|))
      ensures end.Exit? && !any ==> remaining == {} && Reported(reports) == seen
      ensures end.Exit? && any ==> |reports| == 1
      ensures end.Exit? && byTag ==> Found(old(listings), listings, seen)
      ensures waited <= |wakes| && forall j :: 0 <= j < waited - 1 ==> !wakes[j].ListenerClosed?
      ensures end.ListenerGone? ==> remaining != {} && (any ==> reports == []) && waited > 0 && wakes[waited - 1].ListenerClosed?
      ensures end.ListenerGone? ==> forall id :: id in remaining ==> FoundOpen(id, 0)
      ensures AllPrinted(old(prints)) ==> lost == {}
      ensures end.NothingSelected? ==> byTag && seen == {}
      ensures end.Error? ==> Stopped(Abort) || (byTag && SomeListingStops(old(listings), listings, Abort))
      ensures end.Cancel? ==>
        || lookups == [] || (byTag && listings == [])
        || (remaining != {} && waited == |wakes| && ListenerClosed !in wakes && forall id :: id in remaining ==> FoundOpen(id, 0))
      ensures any ==> |reports| <= 1
    {
      var closed := false;
      waited := 0;
      while true
        invariant waited <= |wakes| && Valid() && lost == {} && old(seen) <= seen && (!byTag ==> seen == old(seen))
        invariant any ==> reports == []
        invariant waited > 0 ==> remaining != {}
        invariant Suffix(listings, old(listings))
        invariant closed <==> waited > 0 && wakes[waited - 1].ListenerClosed?
        invariant forall j :: 0 <= j < waited - 1 ==> !wakes[j].ListenerClosed?
        invariant AllPrinted(old(prints)) ==> AllPrinted(prints)
        decreases |wakes| - waited
      {
        ghost var before, was := listings, |asked|;
        var done := Retried();
        FromEarlier(old(listings), before, listings, seen);
        if done.Err? {
          end := match done.error case NoTasks => NothingSelected case Interrupted => Cancel case _ => Error;
          return;
        }
        if done.value { return Exit(failCode), waited; }
        OpenStill(0, was);
        if closed { return ListenerGone, waited; }
        if waited == |wakes| { return Cancel, waited; }
        closed, waited := wakes[waited].ListenerClosed?, waited + 1;
      }
    }

    static lemma SuffixesChain(a: seq<Listing>, b: seq<Listing>, c: seq<Listing>)
      requires Suffix(a, b) && Suffix(b, c)
      ensures Suffix(a, c)
    {
      assert c[|c| - |b|..][|b| - |a|..] == c[|c| - |a|..];
    }
  }
}

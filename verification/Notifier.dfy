/**
  Notifier: one run loop owns a LISTEN connection and keeps a set of channels across reconnects.

  Every reply of the server and every arrival of a request is data, so one call of Run covers
  every schedule.  `conn` is the set of channels the current connection listens to.  Calls of Add
  are numbered in the order in which they enter the queue.
*/
module Notifier {
  import opened Wrappers

  datatype Request = Request(id: nat, channels: seq<string>)
  datatype Reply = Reply(id: nat, ok: bool)

  /** Which queue select serves next, and what the server makes of the statements. */
  datatype Pick = Pick(addFirst: bool, listenFails: Option<nat>, unlistenApplied: bool)

  /** One attempt to connect: refused, a LISTEN failing at some position, or all well. */
  datatype Attempt = Refused(transient: bool) | FailsAt(position: nat, transient: bool) | Works

  /**
    How the wait of a turn ends.  An Add that arrives during a wait is served in the next turn, as
    if it arrived there, unless the wait ends badly: `late` arrive before the pending Adds fail,
    `later` during a reconnect that gives up.
  */
  datatype Wait =
    | Notified
    | TimedOut
    | Lost(late: seq<seq<string>>, attempts: seq<Attempt>, later: seq<seq<string>>)
    | Stopped(late: seq<seq<string>>)

  /** One turn of run: the requests that arrived, whether the context has ended, how the requests are served, and the wait. */
  datatype Turn = Turn(adds: seq<seq<string>>, removes: seq<string>, ended: bool, pick: nat -> Pick, wait: Wait)

  function Elements(names: seq<string>): set<string> {
    set ch | ch in names
  }

  function Numbered(requests: seq<seq<string>>, first: nat): seq<Request> {
    seq(|requests|, i requires 0 <= i < |requests| => Request(first + i, requests[i]))
  }

  // ---------------------------------------------------------------- what was called in a list of turns

  /** The i-th of these requests names the channel and was answered ok; replies are in the order of the calls. */
  predicate GrantedAt(requests: seq<Request>, replies: seq<Reply>, i: nat, ch: string) {
    i < |requests| && requests[i].id < |replies| && ch in requests[i].channels && replies[requests[i].id].ok
  }

  predicate Granted(requests: seq<Request>, replies: seq<Reply>, ch: string) {
    exists i :: 0 <= i < |requests| && GrantedAt(requests, replies, i, ch)
  }

  predicate RemovedIn(turns: seq<Turn>, from: nat, to: nat, ch: string)
    requires to <= |turns|
  {
    exists i :: from <= i < to && ch in turns[i].removes
  }

  /** The Adds called during a turn: all that arrive, up to the point where run returns if it does. */
  function CallsOf(turn: Turn, go: bool): nat {
    |turn.adds| +
    if turn.ended then 0
    else match turn.wait
      case Lost(late, _, later) => |late| + if go then 0 else |later|
      case Stopped(late) => |late|
      case _ => 0
  }

  /** How many Adds were called in the first n turns, if the loop goes on after each of them. */
  function Calls(turns: seq<Turn>, n: nat): nat
    requires n <= |turns|
  {
    if n == 0 then 0 else Calls(turns, n - 1) + CallsOf(turns[n - 1], true)
  }

  lemma {:induction false} CallsGrow(turns: seq<Turn>, k: nat, n: nat)
    requires k < n <= |turns|
    ensures Calls(turns, k) + |turns[k].adds| <= Calls(turns, n)
    decreases n
  {
    if k < n - 1 { CallsGrow(turns, k, n - 1); }
  }

  /** The j-th Add that waits when the k-th turn begins names the channel and was answered ok. */
  predicate GrantedInTurn(turns: seq<Turn>, first: nat, replies: seq<Reply>, k: nat, j: nat, ch: string)
    requires k < |turns|
  {
    var id := first + Calls(turns, k) + j;
    j < |turns[k].adds| && ch in turns[k].adds[j] && id < |replies| && replies[id].ok
  }

  /** What was granted in one of the first n turns and not removed since is subscribed. */
  ghost predicate GrantsLast(turns: seq<Turn>, n: nat, first: nat, due: seq<string>, replies: seq<Reply>, subscribed: set<string>)
    requires n <= |turns|
  {
    forall k: nat, j: nat, ch {:trigger GrantedInTurn(turns, first, replies, k, j, ch)} ::
      k < n && GrantedInTurn(turns, first, replies, k, j, ch) && !RemovedIn(turns, k, n, ch) && (k == 0 ==> ch !in due)
      ==> ch in subscribed
  }

  ghost predicate GrantedSince(turns: seq<Turn>, n: nat, first: nat, replies: seq<Reply>, ch: string)
    requires n <= |turns|
  {
    exists k: nat, j: nat {:trigger GrantedInTurn(turns, first, replies, k, j, ch)} ::
      k < n && GrantedInTurn(turns, first, replies, k, j, ch)
  }

  /** Whatever is subscribed was from the beginning and never removed, or was granted. */
  ghost predicate OnlyGranted(turns: seq<Turn>, n: nat, first: nat, waiting: seq<Request>, due: seq<string>,
    replies: seq<Reply>, was: set<string>, subscribed: set<string>)
    requires n <= |turns|
  {
    forall ch :: ch in subscribed ==>
      || (ch in was && !RemovedIn(turns, 0, n, ch) && (n > 0 ==> ch !in due))
      || Granted(waiting, replies, ch)
      || GrantedSince(turns, n, first, replies, ch)
  }

  /** What was granted to the requests that waited at the beginning, or subscribed then, and not removed is subscribed. */
  ghost predicate FirstLast(turns: seq<Turn>, n: nat, waiting: seq<Request>, due: seq<string>,
    replies: seq<Reply>, was: set<string>, subscribed: set<string>)
    requires n <= |turns|
  {
    forall ch :: ch !in due && !RemovedIn(turns, 0, n, ch) && (ch in was || (n > 0 && Granted(waiting, replies, ch)))
      ==> ch in subscribed
  }

  ghost predicate ListensWork(pick: nat -> Pick) {
    forall n :: pick(n).listenFails.None?
  }

  /** When the context has not ended and no LISTEN fails, every Add of the turn is answered ok. */
  ghost predicate OkWhenListening(turns: seq<Turn>, first: nat, replies: seq<Reply>, k: nat)
    requires k < |turns|
  {
    var id := first + Calls(turns, k);
    !turns[k].ended && ListensWork(turns[k].pick) ==>
      id + |turns[k].adds| <= |replies| && forall i :: id <= i < id + |turns[k].adds| ==> replies[i].ok
  }

  /** What one turn does to the subscriptions: `all` waited when the requests were served, and `due` were to be removed. */
  ghost predicate TurnKeeps(all: seq<Request>, due: seq<string>, replies: seq<Reply>, was: set<string>, now: set<string>) {
    && (forall ch :: ch in was && ch !in due ==> ch in now)
    && (forall i: nat, ch :: GrantedAt(all, replies, i, ch) && ch !in due ==> ch in now)
  }

  ghost predicate TurnAddsOnly(all: seq<Request>, due: seq<string>, replies: seq<Reply>, was: set<string>, now: set<string>) {
    forall ch :: ch in now ==> (ch in was && ch !in due) || Granted(all, replies, ch)
  }

  lemma RemovedOneMore(turns: seq<Turn>, k: nat, n: nat, ch: string)
    requires k <= n < |turns|
    ensures RemovedIn(turns, k, n + 1, ch) <==> RemovedIn(turns, k, n, ch) || ch in turns[n].removes
  {
    if RemovedIn(turns, k, n + 1, ch) { var i :| k <= i < n + 1 && ch in turns[i].removes; }
    if ch in turns[n].removes { assert k <= n < n + 1; }
  }

  /** One more turn, after the first. */
  lemma {:induction false} GrantsGoOn(turns: seq<Turn>, n: nat, first: nat, due: seq<string>, now: nat,
    replies: seq<Reply>, replies': seq<Reply>, was: set<string>, subscribed: set<string>)
    requires n < |turns| && now == first + Calls(turns, n) && replies <= replies' && |replies| <= now && (n > 0 ==> |replies| == now)
    requires GrantsLast(turns, n, first, due, replies, was)
    requires forall ch :: ch in was ==> ch in turns[n].removes || (n == 0 && ch in due) || ch in subscribed
    requires forall j: nat, ch :: GrantedAt(Numbered(turns[n].adds, now), replies', j, ch) ==>
      ch in turns[n].removes || (n == 0 && ch in due) || ch in subscribed
    ensures GrantsLast(turns, n + 1, first, due, replies', subscribed)
  {
    forall k: nat, j: nat, ch | k < n + 1 && GrantedInTurn(turns, first, replies', k, j, ch) &&
      !RemovedIn(turns, k, n + 1, ch) && (k == 0 ==> ch !in due)
      ensures ch in subscribed
    {
      RemovedOneMore(turns, k, n, ch);
      if k < n {
        CallsGrow(turns, k, n);
        assert GrantedInTurn(turns, first, replies, k, j, ch);
      } else {
        assert GrantedAt(Numbered(turns[n].adds, now), replies', j, ch);
      }
    }
  }
  lemma {:induction false} FirstGoOn(turns: seq<Turn>, n: nat, waiting: seq<Request>, due: seq<string>,
    replies: seq<Reply>, replies': seq<Reply>, first: set<string>, was: set<string>, subscribed: set<string>)
    requires n < |turns| && replies <= replies' && (n > 0 ==> forall i :: 0 <= i < |waiting| ==> waiting[i].id < |replies|)
    requires FirstLast(turns, n, waiting, due, replies, first, was) && (n == 0 ==> was == first)
    requires forall ch :: ch in was ==> ch in turns[n].removes || (n == 0 && ch in due) || ch in subscribed
    requires n == 0 ==> forall ch :: Granted(waiting, replies', ch) ==> ch in turns[n].removes || ch in due || ch in subscribed
    ensures FirstLast(turns, n + 1, waiting, due, replies', first, subscribed)
  {
    forall ch | ch !in due && !RemovedIn(turns, 0, n + 1, ch) && (ch in first || Granted(waiting, replies', ch))
      ensures ch in subscribed
    {
      RemovedOneMore(turns, 0, n, ch);
      if n > 0 && Granted(waiting, replies', ch) {
        var i :| 0 <= i < |waiting| && GrantedAt(waiting, replies', i, ch);
        assert GrantedAt(waiting, replies, i, ch);
      }
    }
  }

  lemma {:induction false} OnlyGoesOn(turns: seq<Turn>, n: nat, first: nat, now: nat, waiting: seq<Request>, due: seq<string>,
    replies: seq<Reply>, replies': seq<Reply>, start: set<string>, was: set<string>, subscribed: set<string>)
    requires n < |turns| && replies <= replies' && now == first + Calls(turns, n)
    requires OnlyGranted(turns, n, first, waiting, due, replies, start, was)
    requires forall ch :: ch in subscribed ==>
      || (ch in was && ch !in turns[n].removes && (n == 0 ==> ch !in due))
      || (n == 0 && Granted(waiting, replies', ch))
      || Granted(Numbered(turns[n].adds, now), replies', ch)
    ensures OnlyGranted(turns, n + 1, first, waiting, due, replies', start, subscribed)
  {
    forall ch | ch in subscribed
      ensures
        || (ch in start && !RemovedIn(turns, 0, n + 1, ch) && ch !in due)
        || Granted(waiting, replies', ch)
        || GrantedSince(turns, n + 1, first, replies', ch)
    {
      RemovedOneMore(turns, 0, n, ch);
      if Granted(Numbered(turns[n].adds, now), replies', ch) {
        var j :| 0 <= j < |turns[n].adds| && GrantedAt(Numbered(turns[n].adds, now), replies', j, ch);
        assert GrantedInTurn(turns, first, replies', n, j, ch);
      } else if Granted(waiting, replies, ch) {
        GrantsStay(waiting, replies, replies', ch);
      } else if GrantedSince(turns, n, first, replies, ch) {
        var k: nat, j: nat :| k < n && GrantedInTurn(turns, first, replies, k, j, ch);
        assert GrantedInTurn(turns, first, replies', k, j, ch);
      }
    }
  }

  lemma GrantsStay(requests: seq<Request>, replies: seq<Reply>, replies': seq<Reply>, ch: string)
    requires replies <= replies' && Granted(requests, replies, ch)
    ensures Granted(requests, replies', ch)
  {
    var i :| 0 <= i < |requests| && GrantedAt(requests, replies, i, ch);
    assert GrantedAt(requests, replies', i, ch);
  }

  /** What is granted to two groups of requests together is granted to one of them. */
  lemma GrantedToEither(a: seq<Request>, b: seq<Request>, replies: seq<Reply>)
    ensures forall ch :: Granted(a + b, replies, ch) <==> Granted(a, replies, ch) || Granted(b, replies, ch)
    ensures forall i: nat, ch :: GrantedAt(b, replies, i, ch) ==> GrantedAt(a + b, replies, |a| + i, ch)
  {
    forall ch ensures Granted(a + b, replies, ch) <==> Granted(a, replies, ch) || Granted(b, replies, ch) {
      if Granted(a + b, replies, ch) {
        var i :| 0 <= i < |a + b| && GrantedAt(a + b, replies, i, ch);
        if i < |a| { assert GrantedAt(a, replies, i, ch); } else { assert GrantedAt(b, replies, i - |a|, ch); }
      }
      if Granted(a, replies, ch) {
        var i :| 0 <= i < |a| && GrantedAt(a, replies, i, ch);
        assert GrantedAt(a + b, replies, i, ch);
      }
      if Granted(b, replies, ch) {
        var i :| 0 <= i < |b| && GrantedAt(b, replies, i, ch);
        assert GrantedAt(a + b, replies, |a| + i, ch);
      }
    }
  }

  class Notifier {
    var channels: set<string>
    var conn: Option<set<string>>
    var adds: seq<Request>
    var removes: seq<string>
    var nextId: nat
    var replies: seq<Reply>
    var exited: bool
    ghost var subscribed: set<string>     // added with success, removal not served since

    /** Every Add called so far either has its reply, in the order of the calls, or is waiting. */
    ghost predicate QueueOk() reads this {
      && |replies| + |adds| == nextId
      && (forall i :: 0 <= i < |replies| ==> replies[i].id == i)
      && (forall i :: 0 <= i < |adds| ==> adds[i].id == |replies| + i)
    }

    /** Connected means listening to every channel of the set; nothing subscribed is missing from it. */
    ghost predicate Valid() reads this {
      (conn.Some? ==> channels <= conn.value) && subscribed <= channels && QueueOk()
    }

    constructor (names: set<string>)
      ensures Valid() && channels == names && subscribed == names && conn.None? && !exited
      ensures replies == [] && adds == [] && removes == [] && nextId == 0
    {
      channels, conn, adds, removes, nextId, replies, exited := names, None, [], [], 0, [], false;
      subscribed := names;
    }

    /** Add puts a request into the queue; Remove is dropped when its queue is full, which is no arrival. */
    method Arrive(requests: seq<seq<string>>, removals: seq<string>)
      requires Valid()
      modifies this`adds, this`removes, this`nextId
      ensures Valid() && removes == old(removes) + removals
      ensures adds == old(adds) + Numbered(requests, old(nextId)) && nextId == old(nextId) + |requests|
    {
      for i := 0 to |requests|
        invariant Valid() && removes == old(removes) && nextId == old(nextId) + i
        invariant adds == old(adds) + Numbered(requests[..i], old(nextId))
      {
        assert Numbered(requests[..i + 1], old(nextId)) == Numbered(requests[..i], old(nextId)) + [Request(nextId, requests[i])];
        adds, nextId := adds + [Request(nextId, requests[i])], nextId + 1;
      }
      assert requests[..|requests|] == requests;
      removes := removes + removals;
    }

    /** connect: LISTEN to every channel; conn is set only when all of them succeeded. */
    method Connect(attempt: Attempt) returns (ok: bool)
      requires Valid() && conn.None?
      modifies this`conn
      ensures Valid() && (ok <==> Succeeds(attempt, |channels|)) && conn == if ok then Some(channels) else None
    {
      if attempt.Refused? { return false; }
      var session: set<string> := {};
      var left := channels;
      var n := 0;
      while left != {}
        invariant left <= channels && session == channels - left && n + |left| == |channels|
        invariant attempt.FailsAt? ==> n <= attempt.position
        decreases left
      {
        var ch :| ch in left;
        if attempt.FailsAt? && attempt.position == n { return false; }
        session, left, n := session + {ch}, left - {ch}, n + 1;
      }
      assert session == channels;
      conn := Some(session);
      return true;
    }

    /** An attempt that gets to the end of so many LISTEN statements. */
    static predicate Succeeds(attempt: Attempt, n: nat) {
      attempt.Works? || (attempt.FailsAt? && attempt.position >= n)
    }

    /** Some attempt succeeds, and none before it fails for good; without one the context ends first. */
    static predicate ComesBack(attempts: seq<Attempt>, n: nat) {
      exists i :: 0 <= i < |attempts| && Succeeds(attempts[i], n) &&
        forall j :: 0 <= j < i ==> Succeeds(attempts[j], n) || attempts[j].transient
    }

    /** reconnect: again and again until it works, fails for good, or the context ends. */
    method Reconnect(attempts: seq<Attempt>) returns (ok: bool)
      requires Valid() && conn.None?
      modifies this`conn
      ensures Valid() && (ok <==> ComesBack(attempts, |channels|)) && conn == if ok then Some(channels) else None
    {
      for i := 0 to |attempts|
        invariant Valid() && conn.None?
        invariant forall j :: 0 <= j < i ==> !Succeeds(attempts[j], |channels|) && attempts[j].transient
      {
        ok := Connect(attempts[i]);
        if ok { return true; }
        if !attempts[i].Works? && !attempts[i].transient { return false; }
      }
      return false;
    }

    /** No LISTEN of these names fails: the one that would is not sent, because the channel is in the set by then. */
    static predicate Listens(channels: set<string>, names: seq<string>, fails: Option<nat>) {
      fails.None? || fails.value >= |names| || names[fails.value] in channels + Elements(names[..fails.value])
    }

    /**
      addChannels: LISTEN first, then remember.  Exactly the names before the one that failed are
      remembered and listened to, all of them when none failed.
    */
    method AddChannels(names: seq<string>, fails: Option<nat>) returns (ok: bool, ghost n: nat)
      requires Valid() && conn.Some?
      modifies this`channels, this`conn
      ensures Valid() && conn.Some? && n <= |names| && (ok <==> n == |names|)
      ensures channels == old(channels) + Elements(names[..n])
      ensures conn.value == old(conn.value) + (channels - old(channels))
      ensures ok <==> Listens(old(channels), names, fails)
      ensures !ok ==> fails == Some(n) && names[n] !in channels
    {
      for i := 0 to |names|
        invariant Valid() && conn.Some?
        invariant channels == old(channels) + Elements(names[..i])
        invariant conn.value == old(conn.value) + (channels - old(channels))
        invariant fails.Some? && fails.value < i ==> Listens(old(channels), names, fails)
      {
        assert names[..i + 1] == names[..i] + [names[i]];
        if names[i] in channels { continue; }
        if fails == Some(i) { return false, i; }
        conn := Some(conn.value + {names[i]});
        channels := channels + {names[i]};
      }
      assert names[..|names|] == names;
      return true, |names|;
    }

    /** The first waiting Add gets its reply. */
    method AnswerAdd(ok: bool)
      requires Valid() && adds != []
      modifies this`adds, this`replies
      ensures Valid() && adds == old(adds)[1..] && replies == old(replies) + [Reply(old(adds)[0].id, ok)]
    {
      replies, adds := replies + [Reply(adds[0].id, ok)], adds[1..];
    }

    method ServeAdd(fails: Option<nat>) returns (ghost ok: bool)
      requires Valid() && conn.Some? && adds != []
      modifies this`channels, this`conn, this`adds, this`replies, this`subscribed
      ensures Valid() && conn.Some? && adds == old(adds)[1..]
      ensures replies == old(replies) + [Reply(old(adds)[0].id, ok)]
      ensures ok <==> Listens(old(channels), old(adds)[0].channels, fails)
      ensures subscribed == old(subscribed) + if ok then Elements(old(adds)[0].channels) else {}
      ensures old(channels) <= channels <= old(channels) + Elements(old(adds)[0].channels)
    {
      ghost var names := adds[0].channels;
      var works, n := AddChannels(adds[0].channels, fails);
      if works {
        assert names[..n] == names;
        subscribed := subscribed + Elements(names);
      }
      AnswerAdd(works);
      ok := works;
    }

    /** A removal: the set forgets the channel even when UNLISTEN fails. */
    method ServeRemove(applied: bool)
      requires Valid() && conn.Some? && removes != []
      modifies this`channels, this`conn, this`removes, this`subscribed
      ensures Valid() && conn.Some? && removes == old(removes)[1..]
      ensures subscribed == old(subscribed) - {old(removes)[0]} && channels == old(channels) - {old(removes)[0]}
      ensures conn == if applied && old(removes)[0] in old(channels) then Some(old(conn).value - {old(removes)[0]}) else old(conn)
    {
      var ch := removes[0];
      subscribed, removes := subscribed - {ch}, removes[1..];
      if ch in channels {
        channels := channels - {ch};
        if applied { conn := Some(conn.value - {ch}); }
      }
    }

    /** Some waiting request names the channel. */
    static predicate Asked(requests: seq<Request>, ch: string) {
      exists i :: 0 <= i < |requests| && ch in requests[i].channels
    }

    /**
      processRequests: until both queues are empty, in any order.  Every waiting Add gets its one
      reply, ok whenever LISTEN works.  What was answered ok, and what was subscribed before, is
      subscribed afterwards unless a Remove of it was waiting, and nothing else is.
    */
    method ProcessRequests(pick: nat -> Pick)
      requires Valid() && conn.Some?
      modifies this
      ensures Valid() && conn.Some? && adds == [] && removes == [] && exited == old(exited) && nextId == old(nextId)
      ensures old(replies) <= replies && |replies| == |old(replies)| + |old(adds)|
      ensures ListensWork(pick) ==> AllOk(replies, |old(replies)|)
      ensures TurnKeeps(old(adds), old(removes), replies, old(subscribed), subscribed)
      ensures TurnAddsOnly(old(adds), old(removes), replies, old(subscribed), subscribed)
      ensures forall ch :: ch in channels ==> (ch in old(channels) && ch !in old(removes)) || Asked(old(adds), ch)
    {
      ghost var all, due, start, was, had := adds, removes, |replies|, subscribed, channels;
      ghost var works := ListensWork(pick);
      ghost var gone: nat := 0;
      var n := 0;
      while adds != [] || removes != []
        invariant Valid() && conn.Some? && exited == old(exited) && nextId == old(nextId)
        invariant old(replies) <= replies && InBatch(all, due, gone, was, had, start, works)
        decreases |adds| + |removes|
      {
        gone := ServeOne(pick(n), all, due, gone, was, had, start, works);
        n := n + 1;
      }
      BatchEnds(all, due, was, had, replies, subscribed, channels);
    }

    static lemma BatchEnds(all: seq<Request>, due: seq<string>, was: set<string>, had: set<string>,
      replies: seq<Reply>, subscribed: set<string>, channels: set<string>)
      requires Batch(all, due, |due|, was, had, replies, subscribed, channels)
      ensures TurnKeeps(all, due, replies, was, subscribed) && TurnAddsOnly(all, due, replies, was, subscribed)
      ensures forall ch :: ch in channels ==> (ch in had && ch !in due) || Asked(all, ch)
    {
      assert due[..|due|] == due;
    }

    static ghost predicate AllOk(replies: seq<Reply>, from: nat) {
      forall i :: from <= i < |replies| ==> replies[i].ok
    }

    ghost predicate InBatch(all: seq<Request>, due: seq<string>, gone: nat, was: set<string>, had: set<string>, start: nat, works: bool)
      reads this
    {
      && start <= |replies| <= start + |all| && adds == all[|replies| - start..]
      && (forall i :: 0 <= i < |all| ==> all[i].id == start + i)
      && gone <= |due| && removes == due[gone..]
      && Batch(all, due, gone, was, had, replies, subscribed, channels) && (works ==> AllOk(replies, start))
    }

    /** What select picks next: an Add or a Remove. */
    method ServeOne(pick: Pick, ghost all: seq<Request>, ghost due: seq<string>, ghost gone: nat,
      ghost was: set<string>, ghost had: set<string>, ghost start: nat, ghost works: bool) returns (ghost served: nat)
      requires Valid() && conn.Some? && (adds != [] || removes != []) && InBatch(all, due, gone, was, had, start, works)
      requires works ==> pick.listenFails.None?
      modifies this`channels, this`conn, this`adds, this`removes, this`replies, this`subscribed
      ensures Valid() && conn.Some? && InBatch(all, due, served, was, had, start, works)
      ensures old(replies) <= replies && |adds| + |removes| < old(|adds| + |removes|)
    {
      if removes == [] || (adds != [] && pick.addFirst) {
        ghost var before, was', had' := replies, subscribed, channels;
        ghost var ok := ServeAdd(pick.listenFails);
        BatchAdds(all, due, gone, was, had, before, was', had', |before| - start, ok, channels);
        served := gone;
      } else {
        BatchRemoves(all, due, gone, was, had, replies, subscribed, channels);
        ServeRemove(pick.unlistenApplied);
        served := gone + 1;
      }
    }

    /** In the middle of a batch: what the replies given so far and the removals served so far leave. */
    static ghost predicate Batch(all: seq<Request>, due: seq<string>, gone: nat, was: set<string>, had: set<string>,
      replies: seq<Reply>, subscribed: set<string>, channels: set<string>)
    {
      && gone <= |due|
      && (forall ch :: ch in was && ch !in due ==> ch in subscribed)
      && (forall i: nat, ch :: GrantedAt(all, replies, i, ch) && ch !in due ==> ch in subscribed)
      && (forall ch :: ch in subscribed ==> (ch in was && ch !in due[..gone]) || Granted(all, replies, ch))
      && (forall ch :: ch in channels ==> (ch in had && ch !in due[..gone]) || Asked(all, ch))
    }

    static lemma BatchAdds(all: seq<Request>, due: seq<string>, gone: nat, was: set<string>, had: set<string>,
      replies: seq<Reply>, subscribed: set<string>, channels: set<string>, k: nat, ok: bool, now: set<string>)
      requires Batch(all, due, gone, was, had, replies, subscribed, channels)
      requires k < |all| && forall i :: 0 <= i < |all| ==> all[i].id == |replies| - k + i
      requires now <= channels + Elements(all[k].channels)
      ensures
        var more := if ok then Elements(all[k].channels) else {};
        Batch(all, due, gone, was, had, replies + [Reply(|replies|, ok)], subscribed + more, now)
    {
      OneMoreGranted(all, replies, Reply(|replies|, ok), k);
    }

    static lemma BatchRemoves(all: seq<Request>, due: seq<string>, gone: nat, was: set<string>, had: set<string>,
      replies: seq<Reply>, subscribed: set<string>, channels: set<string>)
      requires Batch(all, due, gone, was, had, replies, subscribed, channels) && gone < |due|
      ensures Batch(all, due, gone + 1, was, had, replies, subscribed - {due[gone]}, channels - {due[gone]})
    {
      assert due[..gone + 1] == due[..gone] + [due[gone]];
    }

    /** One more reply grants exactly the channels of its request, if it is ok. */
    static lemma OneMoreGranted(all: seq<Request>, before: seq<Reply>, last: Reply, k: nat)
      requires k < |all| && forall i :: 0 <= i < |all| ==> all[i].id == |before| - k + i
      ensures forall i: nat, ch :: GrantedAt(all, before + [last], i, ch) <==>
        GrantedAt(all, before, i, ch) || (i == k && last.ok && ch in all[k].channels)
      ensures forall ch :: Granted(all, before, ch) ==> Granted(all, before + [last], ch)
      ensures last.ok ==> forall ch :: ch in all[k].channels ==> Granted(all, before + [last], ch)
    {
      forall ch | Granted(all, before, ch) ensures Granted(all, before + [last], ch) {
        var i :| 0 <= i < |all| && GrantedAt(all, before, i, ch);
        assert GrantedAt(all, before + [last], i, ch);
      }
      if last.ok {
        forall ch | ch in all[k].channels ensures Granted(all, before + [last], ch) {
          assert GrantedAt(all, before + [last], k, ch);
        }
      }
    }

    /** failPendingAdds: every queued Add gets the error. */
    method FailPendingAdds()
      requires Valid()
      modifies this`adds, this`replies
      ensures Valid() && adds == [] && Failed(old(replies), replies)
    {
      while adds != []
        invariant Valid() && Failed(old(replies), replies)
        decreases |adds|
      {
        AnswerAdd(false);
      }
    }

    static predicate Failed(before: seq<Reply>, after: seq<Reply>) {
      before <= after && forall i :: |before| <= i < |after| ==> !after[i].ok
    }

    /** The connection is gone: pending adds fail, then the whole set is subscribed again or run returns. */
    method Recover(attempts: seq<Attempt>, later: seq<seq<string>>) returns (go: bool)
      requires Valid() && conn.Some?
      modifies this`conn, this`adds, this`removes, this`nextId, this`replies
      ensures Valid() && (go ==> conn.Some?) && adds == [] && removes == old(removes) && Failed(old(replies), replies)
      ensures nextId == old(nextId) + if go then 0 else |later|
      ensures go <==> ComesBack(attempts, |channels|)
      ensures go ==> conn == Some(channels)
    {
      conn := None;
      FailPendingAdds();
      go := Reconnect(attempts);
      if !go {
        Arrive(later, []);
        FailPendingAdds();
      }
    }

    /** The wait of a turn; false when run returns. */
    method EndTurn(wait: Wait) returns (go: bool)
      requires Valid() && conn.Some? && adds == []
      modifies this`conn, this`adds, this`removes, this`nextId, this`replies
      ensures Valid() && (go ==> conn.Some?) && adds == [] && removes == old(removes) && Failed(old(replies), replies)
      ensures nextId == old(nextId) + match wait case Lost(late, _, later) => |late| + (if go then 0 else |later|) case Stopped(late) => |late| case _ => 0
      ensures match wait
              case Stopped(_) => !go
              case Lost(_, attempts, _) => (go <==> ComesBack(attempts, |channels|)) && (go ==> conn == Some(channels))
              case _ => go
    {
      match wait {
        case Notified => return true;
        case TimedOut => return true;
        case Stopped(late) =>
          Arrive(late, []);
          FailPendingAdds();
          return false;
        case Lost(late, attempts, later) =>
          Arrive(late, []);
          go := Recover(attempts, later);
      }
    }

    /**
      One turn of the loop; false when run returns.  Once the context has ended nothing is served
      and every waiting Add fails; otherwise the waiting requests are served before the wait.
    */
    method OneTurn(turn: Turn) returns (go: bool)
      requires Valid() && conn.Some?
      modifies this
      ensures Valid() && (go ==> conn.Some?) && exited == old(exited) && adds == [] && old(replies) <= replies
      ensures removes == if turn.ended then old(removes) + turn.removes else []
      ensures nextId == old(nextId) + CallsOf(turn, go)
      ensures
        var all := old(adds) + Numbered(turn.adds, old(nextId));
        && TurnKeeps(all, old(removes) + turn.removes, replies, old(subscribed), subscribed)
        && (!turn.ended ==> TurnAddsOnly(all, old(removes) + turn.removes, replies, old(subscribed), subscribed))
      ensures if turn.ended
        then !go && subscribed == old(subscribed) && Failed(old(replies), replies)
        else ListensWork(turn.pick) ==> forall i :: |old(replies)| <= i < old(nextId) + |turn.adds| ==> replies[i].ok
      ensures go <==> !turn.ended && GoesOn(turn.wait, |channels|)
      ensures go && turn.wait.Lost? ==> conn == Some(channels)
    {
      Arrive(turn.adds, turn.removes);
      ghost var all := adds;
      if turn.ended {
        FailPendingAdds();
        return false;
      }
      ProcessRequests(turn.pick);
      ghost var served := replies;
      go := EndTurn(turn.wait);
      LateFail(all, served, replies);
    }

    /** How a turn goes on: after a notification or a timeout, or on a new connection. */
    static predicate GoesOn(wait: Wait, n: nat) {
      match wait
      case Notified => true
      case TimedOut => true
      case Stopped(_) => false
      case Lost(_, attempts, _) => ComesBack(attempts, n)
    }

    /** Replies given after a batch do not change what it granted. */
    static lemma LateFail(all: seq<Request>, served: seq<Reply>, replies: seq<Reply>)
      requires served <= replies && forall i :: 0 <= i < |all| ==> all[i].id < |served|
      ensures forall i: nat, ch :: GrantedAt(all, replies, i, ch) <==> GrantedAt(all, served, i, ch)
      ensures forall ch :: Granted(all, replies, ch) <==> Granted(all, served, ch)
    {
    }

    /** While run can be in the loop: what the turns so far granted and removed is what is subscribed. */
    ghost predicate Follows(turns: seq<Turn>, n: nat, first: nat, waiting: seq<Request>, due: seq<string>, was: set<string>)
      requires n <= |turns|
      reads this
    {
      && GrantsLast(turns, n, first, due, replies, subscribed)
      && FirstLast(turns, n, waiting, due, replies, was, subscribed)
      && forall k: nat {:trigger OkWhenListening(turns, first, replies, k)} :: k < n ==> OkWhenListening(turns, first, replies, k)
    }

    /** The next turn of run. */
    method NextTurn(turns: seq<Turn>, n: nat, ghost first: nat, ghost waiting: seq<Request>, ghost due: seq<string>, ghost was: set<string>)
      returns (go: bool)
      requires Valid() && conn.Some? && n < |turns| && nextId == first + Calls(turns, n)
      requires Follows(turns, n, first, waiting, due, was)
      requires OnlyGranted(turns, n, first, waiting, due, replies, was, subscribed)
      requires if n == 0 then adds == waiting && removes == due && subscribed == was else adds == [] && removes == []
      requires n > 0 ==> forall i :: 0 <= i < |waiting| ==> waiting[i].id < |replies|
      modifies this
      ensures Valid() && (go ==> conn.Some? && removes == []) && exited == old(exited) && adds == [] && old(replies) <= replies
      ensures nextId == old(nextId) + CallsOf(turns[n], go)
      ensures Follows(turns, n + 1, first, waiting, due, was)
      ensures !turns[n].ended ==> OnlyGranted(turns, n + 1, first, waiting, due, replies, was, subscribed)
      ensures go <==> !turns[n].ended && GoesOn(turns[n].wait, |channels|)
      ensures forall i :: 0 <= i < |waiting| ==> waiting[i].id < |replies|
    {
      ghost var before, had, now, asked := replies, subscribed, nextId, adds;
      go := OneTurn(turns[n]);
      GrantedToEither(asked, Numbered(turns[n].adds, now), replies);
      GrantsGoOn(turns, n, first, due, now, before, replies, had, subscribed);
      FirstGoOn(turns, n, waiting, due, before, replies, was, had, subscribed);
      forall k: nat | k < n + 1 ensures OkWhenListening(turns, first, replies, k) {
        if k < n { assert OkWhenListening(turns, first, before, k); }
      }
      if !turns[n].ended {
        OnlyGoesOn(turns, n, first, now, waiting, due, before, replies, was, had, subscribed);
      }
    }

    /**
      run, over any schedule: whenever it is connected the channel set is covered by the connection,
      and every Add called has exactly one reply by the end of its turn, whatever happens to the
      connection.  An Add answered ok stays subscribed through any number of reconnects unless a
      Remove of its channel was waiting then or is called later, and nothing else gets subscribed.
    */
    method Run(turns: seq<Turn>) returns (ghost ran: nat)
      requires Valid() && conn.Some? && !exited
      modifies this
      ensures Valid() && ran <= |turns| && old(replies) <= replies
      ensures if exited then conn.None? && ran > 0 else conn.Some? && ran == |turns|
      ensures ran > 0 ==> adds == [] && |replies| == nextId
      ensures nextId == old(nextId) + if exited then Calls(turns, ran - 1) + CallsOf(turns[ran - 1], false) else Calls(turns, ran)
      ensures Follows(turns, ran, old(nextId), old(adds), old(removes), old(subscribed))
      ensures (exited && turns[ran - 1].ended) || OnlyGranted(turns, ran, old(nextId), old(adds), old(removes), replies, old(subscribed), subscribed)
      ensures !exited ==> forall i :: 0 <= i < ran ==> !turns[i].ended && !turns[i].wait.Stopped?
      ensures exited ==> turns[ran - 1].ended || !GoesOn(turns[ran - 1].wait, |channels|)
    {
      ran := 0;
      ghost var first, waiting, due, was := nextId, adds, removes, subscribed;
      for i := 0 to |turns|
        invariant ran == i && Valid() && conn.Some? && !exited && old(replies) <= replies
        invariant if i == 0 then adds == waiting && removes == due && subscribed == was else adds == [] && removes == []
        invariant nextId == first + Calls(turns, i) && Follows(turns, i, first, waiting, due, was)
        invariant OnlyGranted(turns, i, first, waiting, due, replies, was, subscribed)
        invariant i > 0 ==> forall j :: 0 <= j < |waiting| ==> waiting[j].id < |replies|
        invariant forall j :: 0 <= j < i ==> !turns[j].ended && !turns[j].wait.Stopped?
      {
        var go := NextTurn(turns, i, first, waiting, due, was);
        ran := i + 1;
        if !go {
          conn, exited := None, true;
          return;
        }
      }
    }

    /**
      Why waiting removals matter: Remove is called before Add, select takes the Add first, the Add
      succeeds, and the older Remove then undoes it.
    */
    method WaitingRemovalUndoesAdd()
      requires Valid() && conn.Some? && adds != [] && removes != [] && removes[0] in adds[0].channels
      modifies this
      ensures Valid() && replies == old(replies) + [Reply(old(adds)[0].id, true)]
      ensures old(removes)[0] !in subscribed
    {
      var _ := ServeAdd(None);
      ServeRemove(true);
    }

    /** Every Add ever called is in exactly one place: it has one reply, or waits for it. */
    lemma EveryRequestHasOneReply(n: nat)
      requires Valid() && n < nextId
      ensures if n < |replies|
        then replies[n].id == n && (forall i :: 0 <= i < |replies| && replies[i].id == n ==> i == n) && forall j :: 0 <= j < |adds| ==> adds[j].id != n
        else n - |replies| < |adds| && adds[n - |replies|].id == n && forall i :: 0 <= i < |replies| ==> replies[i].id != n
    {
    }
  }
}

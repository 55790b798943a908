/**
  Publishing fetched files while other processes use the destination.  Before every system call
  others may create, remove and move files; the call itself may fail.

  A slot is what a path refers to: a file system that folds case gives two names one slot.
*/
module Fetch {
  import opened Wrappers
  import Selection
  import FetchPlan

  /** File identity: files this fetch created, and all others. */
  datatype Id = Ours(n: nat) | Theirs(n: nat)
  datatype Entry = Regular(id: Id, content: string, modified: nat) | Special

  type Files = map<nat, Entry>

  datatype Foreign =
    | Create(slot: nat, id: nat, content: string, modified: nat)
    | CreateSpecial(slot: nat)
    | Remove(slot: nat)
    | Move(from: nat, to: nat)

  function Disturb(files: Files, f: Foreign): Files {
    match f
    case Create(slot, id, content, modified) => files[slot := Regular(Theirs(id), content, modified)]
    case CreateSpecial(slot) => files[slot := Special]
    case Remove(slot) => files - {slot}
    case Move(from, to) => if from in files then (files - {from})[to := files[from]] else files
  }

  function DisturbAll(files: Files, fs: seq<Foreign>): Files
    decreases |fs|
  {
    if fs == [] then files else DisturbAll(Disturb(files, fs[0]), fs[1..])
  }

  /** What others can do: put something at a path, take it away, or move a file, and nothing else changes. */
  lemma OthersDoThis(files: Files, f: Foreign, slot: nat)
    ensures f.Create? ==>
      At(Disturb(files, f), slot) == if slot == f.slot then Some(Regular(Theirs(f.id), f.content, f.modified)) else At(files, slot)
    ensures f.CreateSpecial? ==> At(Disturb(files, f), slot) == if slot == f.slot then Some(Special) else At(files, slot)
    ensures f.Remove? ==> At(Disturb(files, f), slot) == if slot == f.slot then None else At(files, slot)
    ensures f.Move? && f.from in files ==>
      At(Disturb(files, f), slot) == if slot == f.to then Some(files[f.from]) else if slot == f.from then None else At(files, slot)
    ensures DisturbAll(files, [f]) == Disturb(files, f)
  {
    assert [f][1..] == [];
  }

  lemma {:induction false} OthersDoAllThis(files: Files, fs: seq<Foreign>, more: seq<Foreign>)
    ensures DisturbAll(files, fs + more) == DisturbAll(DisturbAll(files, fs), more)
    decreases |fs|
  {
    if fs == [] {
      assert fs + more == more;
    } else {
      assert (fs + more)[0] == fs[0] && (fs + more)[1..] == fs[1..] + more;
      OthersDoAllThis(Disturb(files, fs[0]), fs[1..], more);
    }
  }

  /** What others do just before one system call, the time, and whether the call fails. */
  datatype Call = Call(others: seq<Foreign>, now: nat, fails: bool)

  predicate Quiet(script: seq<Call>) {
    forall i :: 0 <= i < |script| ==> script[i].others == []
  }

  /** Nobody else acts, and no call fails. */
  predicate Calm(script: seq<Call>) {
    forall i :: 0 <= i < |script| ==> script[i].others == [] && !script[i].fails
  }

  /** What the object store answers: a size, a checksum if known, and a body that may break off. */
  datatype Get = Failed | Got(size: int, sha: string, body: string, broken: bool)

  /** os.SameFile with equal size and modification time. */
  predicate Same(a: Entry, b: Entry) {
    a.Regular? && b.Regular? && a.id == b.id && |a.content| == |b.content| && a.modified == b.modified
  }

  /** A regular file that was not touched is the same; anything else differs in identity, size or time. */
  lemma SameIsUntouched(a: Entry, b: Entry)
    ensures a.Regular? ==> Same(a, a)
    ensures Same(a, b) ==> Same(b, a) && a.id == b.id && |a.content| == |b.content| && a.modified == b.modified
    ensures a.Regular? && b.Regular? && !Same(a, b) ==> a.id != b.id || |a.content| != |b.content| || a.modified != b.modified
  {
  }

  datatype Error = Io | NotRegular | Exists | Changed | Incomplete | Expired

  /** Fetch ends in planning or in writing. */
  datatype Failure = Refused(why: FetchPlan.Error) | Stopped(error: Error)

  /**
    A file that was published: what was planned for its path, how many system calls had begun when
    the path was last found unchanged, and how many when the file was put there.
  */
  datatype Publication = Publication(name: string, entry: Entry, planned: Option<Entry>, checked: nat, at: nat)

  function At(files: Files, slot: nat): Option<Entry> {
    if slot in files then Some(files[slot]) else None
  }

  /** Files of ours are numbered in the order of their creation. */
  ghost predicate OursBelow(files: Files, n: nat) {
    forall s :: s in files && files[s].Regular? && files[s].id.Ours? ==> files[s].id.n < n
  }

  lemma {:induction false} OthersMakeNoneOfOurs(files: Files, fs: seq<Foreign>, n: nat)
    requires OursBelow(files, n)
    ensures OursBelow(DisturbAll(files, fs), n)
    decreases |fs|
  {
    if fs != [] { OthersMakeNoneOfOurs(Disturb(files, fs[0]), fs[1..], n); }
  }

  /** What others do before the calls from one number to another. */
  function DisturbCalls(files: Files, calls: seq<Call>, from: nat, to: nat): Files {
    if to <= from || to > |calls| then files else DisturbAll(DisturbCalls(files, calls, from, to - 1), calls[to - 1].others)
  }

  predicate Stay(fs: seq<Foreign>) {
    forall i :: 0 <= i < |fs| ==> !fs[i].Move?
  }

  lemma {:induction false} PathsAreApart(a: Files, b: Files, fs: seq<Foreign>, slot: nat)
    requires Stay(fs) && At(a, slot) == At(b, slot)
    ensures At(DisturbAll(a, fs), slot) == At(DisturbAll(b, fs), slot)
    decreases |fs|
  {
    if fs != [] { PathsAreApart(Disturb(a, fs[0]), Disturb(b, fs[0]), fs[1..], slot); }
  }

  lemma {:induction false} PathsStayApart(a: Files, b: Files, calls: seq<Call>, from: nat, to: nat, slot: nat)
    requires (forall i :: 0 <= i < |calls| ==> Stay(calls[i].others)) && At(a, slot) == At(b, slot)
    ensures At(DisturbCalls(a, calls, from, to), slot) == At(DisturbCalls(b, calls, from, to), slot)
  {
    if from < to <= |calls| {
      PathsStayApart(a, b, calls, from, to - 1, slot);
      PathsAreApart(DisturbCalls(a, calls, from, to - 1), DisturbCalls(b, calls, from, to - 1), calls[to - 1].others, slot);
    }
  }

  lemma {:induction false} DisturbanceGoesOn(files: Files, calls: seq<Call>, from: nat, middle: nat, last: nat)
    requires from <= middle <= last <= |calls|
    ensures DisturbCalls(DisturbCalls(files, calls, from, middle), calls, middle, last) == DisturbCalls(files, calls, from, last)
    decreases last
  {
    if middle < last { DisturbanceGoesOn(files, calls, from, middle, last - 1); }
  }

  class Destination {
    const slotOf: string -> nat
    const store: string -> Get
    const digest: string -> string
    /** The files at the beginning, and everything others do before the calls to come. */
    const start: Files
    const origin: seq<Call>
    var files: Files
    var script: seq<Call>
    var ours: nat
    ghost var published: seq<Publication>

    constructor (slotOf: string -> nat, store: string -> Get, digest: string -> string, files: Files, script: seq<Call>)
      requires OursBelow(files, 0)
      ensures Valid() && published == [] && this.files == files && this.script == script
      ensures start == files && origin == script
      ensures this.slotOf == slotOf && this.store == store && this.digest == digest && ours == 0
    {
      this.slotOf, this.store, this.digest, this.files, this.script := slotOf, store, digest, files, script;
      start, origin, ours, published := files, script, 0, [];
    }

    /** The files after the first k publications and n system calls: nothing else of ours ever changes a path. */
    ghost function History(pubs: seq<Publication>, k: nat, n: nat): Files
      requires k <= |pubs|
    {
      if k == 0 then DisturbCalls(start, origin, 0, n)
      else
        var p := pubs[k - 1];
        DisturbCalls(History(pubs, k - 1, p.at)[slotOf(p.name) := p.entry], origin, p.at, n)
    }

    lemma {:induction false} HistoryIsKept(pubs: seq<Publication>, p: Publication, k: nat, n: nat)
      requires k <= |pubs|
      ensures History(pubs + [p], k, n) == History(pubs, k, n)
    {
      if k > 0 { HistoryIsKept(pubs, p, k - 1, pubs[k - 1].at); }
    }

    lemma HistoryGoesOn(pubs: seq<Publication>, k: nat, n: nat)
      requires k <= |pubs| && n < |origin| && (k > 0 ==> pubs[k - 1].at <= n)
      ensures History(pubs, k, n + 1) == DisturbAll(History(pubs, k, n), origin[n].others)
    {
    }

    /** The body has the announced size and, if one is known, the announced checksum. */
    predicate Complete(name: string, content: string) {
      var get := store(name);
      && get.Got? && get.size == |content| && !get.broken && get.body == content
      && (get.sha == "" || Selection.EqualFold(get.sha, digest(content)))
    }

    /** As long as others move no files, a path no publication refers to is just as they made it. */
    lemma {:induction false} OtherPathsAreTheirs(pubs: seq<Publication>, k: nat, n: nat, slot: nat)
      requires k <= |pubs| && n <= |origin| && (k > 0 ==> pubs[k - 1].at <= n)
      requires forall i :: 0 < i < k ==> pubs[i - 1].at <= pubs[i].at
      requires forall i :: 0 <= i < |origin| ==> Stay(origin[i].others)
      requires forall i :: 0 <= i < k ==> slotOf(pubs[i].name) != slot
      ensures At(History(pubs, k, n), slot) == At(DisturbCalls(start, origin, 0, n), slot)
    {
      if k > 0 {
        var p := pubs[k - 1];
        OtherPathsAreTheirs(pubs, k - 1, p.at, slot);
        PathsStayApart(History(pubs, k - 1, p.at)[slotOf(p.name) := p.entry], DisturbCalls(start, origin, 0, p.at), origin, p.at, n, slot);
        DisturbanceGoesOn(start, origin, 0, p.at, n);
      }
    }

    /** What the path held when it was last found unchanged, and what the publication replaced. */
    ghost function Found(pubs: seq<Publication>, i: nat): Option<Entry>
      requires i < |pubs|
    {
      At(History(pubs, i, pubs[i].checked), slotOf(pubs[i].name))
    }

    ghost function Replaced(pubs: seq<Publication>, i: nat): Option<Entry>
      requires i < |pubs|
    {
      At(History(pubs, i, pubs[i].at), slotOf(pubs[i].name))
    }

    /**
      A published file is a complete file of ours.  Its path was free if it was free at planning time.
      Otherwise the path held the planned file when it was last looked at, and at most the one system
      call that replaced it began since: only a change in this very last moment can be overwritten.
    */
    ghost predicate Sound(pubs: seq<Publication>, i: nat)
      requires i < |pubs|
    {
      var p := pubs[i];
      && p.entry.Regular? && p.entry.id.Ours? && Complete(p.name, p.entry.content)
      && (i > 0 ==> pubs[i - 1].at <= p.checked) && p.checked <= p.at <= p.checked + 1
      && (p.planned.None? ==> Replaced(pubs, i).None?)
      && (p.planned.Some? ==> Found(pubs, i).Some? && Same(p.planned.value, Found(pubs, i).value))
    }

    ghost predicate AllSound(pubs: seq<Publication>) {
      forall i: nat {:trigger Sound(pubs, i)} :: i < |pubs| ==> Sound(pubs, i)
    }

    /** How many system calls have begun. */
    ghost function Begun(): int
      reads this`script
    {
      |origin| - |script|
    }

    /** The files are exactly what others and the recorded publications made of them, in order. */
    ghost predicate Valid()
      reads this
    {
      && OursBelow(files, ours) && AllSound(published)
      && 0 <= Begun() && script == origin[Begun()..]
      && (published != [] ==> published[|published| - 1].at <= Begun())
      && files == History(published, |published|, Begun())
    }

    /** The start of a system call. */
    method Enter() returns (fails: bool, now: nat)
      requires Valid()
      modifies this`files, this`script
      ensures Valid() && script == Rest(old(script)) && files == Next(old(files), old(script))
      ensures fails == Fails(old(script))
      ensures Quiet(old(script)) ==> Quiet(script) && files == old(files)
    {
      if script == [] { return false, 0; }
      var call := script[0];
      OthersMakeNoneOfOurs(files, call.others, ours);
      HistoryGoesOn(published, |published|, Begun());
      assert origin[Begun()] == call && origin[Begun() + 1..] == script[1..];
      files, script := DisturbAll(files, call.others), script[1..];
      return call.fails, call.now;
    }

    static function Rest(script: seq<Call>): seq<Call> {
      if script == [] then [] else script[1..]
    }

    /** The files when the next system call takes effect. */
    static function Next(files: Files, script: seq<Call>): Files {
      if script == [] then files else DisturbAll(files, script[0].others)
    }

    static predicate Fails(script: seq<Call>) {
      script != [] && script[0].fails
    }

    /** checkFetchTarget. */
    method CheckTarget(slot: nat, overwrite: bool) returns (r: Result<Option<Entry>, Error>)
      requires Valid()
      modifies this`files, this`script
      ensures Valid() && script == Rest(old(script)) && files == Next(old(files), old(script))
      ensures Quiet(old(script)) ==> Quiet(script) && files == old(files)
      ensures r.Ok? <==> !Fails(old(script)) && (slot !in files || (overwrite && files[slot].Regular?))
      ensures r.Ok? ==> r.value == At(files, slot)
    {
      var fails, _ := Enter();
      if fails { return Err(Io); }
      if slot !in files { return Ok(None); }
      if files[slot].Special? { return Err(NotRegular); }
      if !overwrite { return Err(Exists); }
      return Ok(Some(files[slot]));
    }

    /** The path is as it was planned: free, or the same file with the same size and time. */
    static predicate Unchanged(files: Files, slot: nat, original: Option<Entry>) {
      if original.None? then slot !in files else slot in files && Same(original.value, files[slot])
    }

    /** checkFetchUnchanged. */
    method CheckUnchanged(slot: nat, original: Option<Entry>) returns (r: Result<(), Error>)
      requires Valid()
      modifies this`files, this`script
      ensures Valid() && script == Rest(old(script)) && files == Next(old(files), old(script))
      ensures Quiet(old(script)) ==> Quiet(script) && files == old(files)
      ensures r.Ok? <==> !Fails(old(script)) && Unchanged(files, slot, original)
    {
      var current := CheckTarget(slot, true);
      if current.Err? { return Err(current.error); }
      if original.None? && current.value.None? { return Ok(()); }
      if original.Some? && current.value.Some? && Same(original.value, current.value.value) { return Ok(()); }
      return Err(Changed);
    }

    /** The path now holds the temporary file, and this is on record. */
    method Put(name: string, temporary: Entry, ghost planned: Option<Entry>, ghost checked: nat)
      requires Valid() && temporary.Regular? && temporary.id.Ours? && temporary.id.n < ours && Complete(name, temporary.content)
      requires checked <= Begun() <= checked + 1 && (published != [] ==> published[|published| - 1].at <= checked)
      requires planned.None? ==> slotOf(name) !in files
      requires planned.Some? ==>
        var found := At(History(published, |published|, checked), slotOf(name));
        found.Some? && Same(planned.value, found.value)
      modifies this`files, this`published
      ensures Valid() && files == old(files)[slotOf(name) := temporary]
      ensures published == old(published) + [Publication(name, temporary, planned, checked, Begun())]
    {
      RecordIsSound(Publication(name, temporary, planned, checked, Begun()));
      published := published + [Publication(name, temporary, planned, checked, Begun())];
      files := files[slotOf(name) := temporary];
    }

    lemma RecordIsSound(p: Publication)
      requires Valid() && p.at == Begun() && p.entry.Regular? && p.entry.id.Ours? && Complete(p.name, p.entry.content)
      requires p.checked <= p.at <= p.checked + 1 && (published != [] ==> published[|published| - 1].at <= p.checked)
      requires p.planned.None? ==> slotOf(p.name) !in files
      requires p.planned.Some? ==>
        var found := At(History(published, |published|, p.checked), slotOf(p.name));
        found.Some? && Same(p.planned.value, found.value)
      ensures AllSound(published + [p])
      ensures History(published + [p], |published| + 1, p.at) == files[slotOf(p.name) := p.entry]
    {
      var pubs := published + [p];
      HistoryIsKept(published, p, |published|, p.at);
      HistoryIsKept(published, p, |published|, p.checked);
      forall i: nat | i < |pubs| ensures Sound(pubs, i) {
        if i < |published| {
          assert Sound(published, i);
          HistoryIsKept(published, p, i, published[i].at);
          HistoryIsKept(published, p, i, published[i].checked);
        }
      }
    }

    /**
      os.Root.Rename of the temporary file over the path.  It replaces whatever is there at that
      moment: the planned file, unless others changed the path since it was looked at.
    */
    method Rename(name: string, temporary: Entry, ghost planned: Option<Entry>) returns (ok: bool)
      requires Valid() && temporary.Regular? && temporary.id.Ours? && temporary.id.n < ours
      requires Complete(name, temporary.content)
      requires planned.Some? && slotOf(name) in files && Same(planned.value, files[slotOf(name)])
      modifies this`files, this`script, this`published
      ensures Valid() && script == Rest(old(script)) && ok == !Fails(old(script))
      ensures files == if ok then Next(old(files), old(script))[slotOf(name) := temporary] else Next(old(files), old(script))
      ensures !ok ==> published == old(published)
      ensures ok ==> published == old(published) + [Publication(name, temporary, planned, old(Begun()), Begun())]
      ensures Quiet(old(script)) ==> Quiet(script) && files == if ok then old(files)[slotOf(name) := temporary] else old(files)
    {
      ghost var checked := Begun();
      var fails, _ := Enter();
      if fails { return false; }
      Put(name, temporary, planned, checked);
      return true;
    }

    /** os.Root.Link of the temporary file to the path: it fails if anything is there at that moment. */
    method Link(name: string, temporary: Entry) returns (ok: bool)
      requires Valid() && temporary.Regular? && temporary.id.Ours? && temporary.id.n < ours
      requires Complete(name, temporary.content)
      modifies this`files, this`script, this`published
      ensures Valid() && script == Rest(old(script))
      ensures ok <==> !Fails(old(script)) && slotOf(name) !in Next(old(files), old(script))
      ensures files == if ok then Next(old(files), old(script))[slotOf(name) := temporary] else Next(old(files), old(script))
      ensures !ok ==> published == old(published)
      ensures ok ==> published == old(published) + [Publication(name, temporary, None, old(Begun()), Begun())]
      ensures Quiet(old(script)) ==> Quiet(script) && files == if ok then old(files)[slotOf(name) := temporary] else old(files)
    {
      ghost var checked := Begun();
      var fails, _ := Enter();
      if fails || slotOf(name) in files { return false; }
      Put(name, temporary, None, checked);
      return true;
    }

    /** The object can be read to its end, with the announced size and checksum. */
    predicate Fetchable(name: string) {
      var get := store(name);
      get.Got? && Complete(name, get.body)
    }

    /** The first part of fetchFile: a complete temporary file, or an error. */
    method Download(name: string, expired: bool) returns (r: Result<Entry, Error>)
      requires Valid()
      modifies this`files, this`script, this`ours
      ensures Valid() && ours >= old(ours)
      ensures r.Ok? ==> Made(r.value, old(ours), ours) && Complete(name, r.value.content)
      ensures r.Ok? <==> Fetchable(name) && !expired && !Fails(old(script))
      ensures r.Ok? ==> files == Next(old(files), old(script)) && script == Rest(old(script))
      ensures Quiet(old(script)) ==> Quiet(script) && files == old(files)
      ensures Calm(old(script)) ==> Calm(script)
    {
      var get := store(name);
      if get.Failed? || get.size < 0 { return Err(Incomplete); }
      var fails, now := Enter();
      if fails { return Err(Io); }
      var content := if |get.body| <= get.size then get.body else get.body[..get.size];
      var temporary := Regular(Ours(ours), content, now);
      ours := ours + 1;
      if get.broken || |content| != get.size || |get.body| != get.size { return Err(Incomplete); }
      if get.sha != "" && !Selection.EqualFold(get.sha, digest(content)) { return Err(Changed); }
      if expired { return Err(Expired); }
      return Ok(temporary);
    }

    /** The last part of fetchFile: look at the path once more, then rename or link. */
    method PublishFile(name: string, temporary: Entry, original: Option<Entry>) returns (r: Result<(), Error>)
      requires Valid() && temporary.Regular? && temporary.id.Ours? && temporary.id.n < ours && Complete(name, temporary.content)
      modifies this`files, this`script, this`published
      ensures Valid()
      ensures r.Err? ==> published == old(published)
      ensures r.Ok? ==> |published| == |old(published)| + 1 && published[..|old(published)|] == old(published)
      ensures r.Ok? ==> Recorded(published[|old(published)|], name, temporary, original)
      ensures r.Ok? <==> Publishable(old(files), old(script), slotOf(name), original)
      ensures Quiet(old(script)) ==> Quiet(script) && files == if r.Ok? then old(files)[slotOf(name) := temporary] else old(files)
      ensures Quiet(old(script)) && r.Ok? ==> Unchanged(old(files), slotOf(name), original)
      ensures Calm(old(script)) ==> Calm(script) && (r.Ok? <==> Unchanged(old(files), slotOf(name), original))
    {
      var after := CheckUnchanged(slotOf(name), original);
      if after.Err? { return Err(after.error); }
      var ok;
      if original.Some? { ok := Rename(name, temporary, original); } else { ok := Link(name, temporary); }
      return if ok then Ok(()) else Err(Io);
    }

    /**
      The next two calls publish a file: the path is as planned at the first, which looks at it, and
      at the second, which links the file, a path planned as free still is.
    */
    static predicate Publishable(files: Files, script: seq<Call>, slot: nat, original: Option<Entry>) {
      && !Fails(script) && Unchanged(Next(files, script), slot, original)
      && !Fails(Rest(script)) && (original.None? ==> slot !in Next(Next(files, script), Rest(script)))
    }

    /** Whatever others do, this is what a file needs to be published: its path as planned, its object complete, and its calls working. */
    predicate Succeeds(files: Files, script: seq<Call>, name: string, original: Option<Entry>, parents: bool, expired: bool) {
      && parents && !Fails(script) && Unchanged(Next(files, script), slotOf(name), original)
      && Fetchable(name) && !expired && !Fails(Rest(script))
      && Publishable(Next(Next(files, script), Rest(script)), Rest(Rest(script)), slotOf(name), original)
    }

    /** A file made by this fetch between two points. */
    static predicate Made(entry: Entry, first: nat, next: nat) {
      entry.Regular? && entry.id.Ours? && first <= entry.id.n < next
    }

    static predicate Recorded(p: Publication, name: string, entry: Entry, planned: Option<Entry>) {
      p.name == name && p.entry == entry && p.planned == planned
    }

    /**
      fetchFile; `parents` is whether the directories of the path can be opened or made, `expired`
      whether the deadline passes.  A failure changes nothing, whatever others do.  It succeeds exactly
      when the object is complete, in time, every call works, and the path is as it was planned
      whenever it is looked at.
    */
    method FetchFile(name: string, original: Option<Entry>, parents: bool, expired: bool) returns (r: Result<(), Error>)
      requires Valid()
      requires original.Some? ==> original.value.Regular? && original.value.id.Theirs?
      modifies this`files, this`script, this`ours, this`published
      ensures Valid() && ours >= old(ours)
      ensures r.Err? ==> published == old(published)
      ensures r.Ok? ==> |published| == |old(published)| + 1 && published[..|old(published)|] == old(published)
      ensures r.Ok? ==> Recorded(published[|old(published)|], name, published[|old(published)|].entry, original)
      ensures r.Ok? ==> Made(published[|old(published)|].entry, old(ours), ours)
      ensures ours > old(ours) ==> !Fails(old(script)) && Unchanged(Next(old(files), old(script)), slotOf(name), original)
      ensures r.Ok? <==> Succeeds(old(files), old(script), name, original, parents, expired)
      ensures Quiet(old(script)) ==> Quiet(script) && (r.Err? ==> files == old(files))
      ensures Quiet(old(script)) && r.Ok? ==> Landed(old(files), files, name, old(ours), ours)
      ensures Calm(old(script)) ==> Calm(script)
      ensures Calm(old(script)) ==> (r.Ok? <==> parents && Fetchable(name) && !expired && Unchanged(old(files), slotOf(name), original))
    {
      if !parents { return Err(Io); }
      var before := CheckUnchanged(slotOf(name), original);
      if before.Err? { return Err(before.error); }
      var temporary := Download(name, expired);
      if temporary.Err? { return Err(temporary.error); }
      r := PublishFile(name, temporary.value, original);
    }

    /** In one step only the slot of this name changed: from nothing or a file of others, to a complete new file of ours. */
    predicate Landed(before: Files, after: Files, name: string, first: nat, next: nat) {
      var slot := slotOf(name);
      && slot in after && after == before[slot := after[slot]]
      && Made(after[slot], first, next)
      && Complete(name, after[slot].content)
      && (slot in before ==> before[slot].Regular? && before[slot].id.Theirs?)
    }

    /** What planning finds at a path: nothing where its directory is missing. */
    function Target(before: Files, name: string, parent: Parent): Option<Entry> {
      if parent.Missing? then None else At(before, slotOf(name))
    }

    function Targets(before: Files, names: seq<string>, parents: string -> Parent): (r: seq<Option<Entry>>)
      ensures |r| == |names|
    {
      seq(|names|, i requires 0 <= i < |names| => Target(before, names[i], parents(names[i])))
    }

    /** Planning accepts this path: it is free, or a regular file that may be replaced. */
    predicate Plannable(before: Files, name: string, parent: Parent, overwrite: bool) {
      !parent.Unusable? && (Target(before, name, parent).Some? ==> overwrite && Target(before, name, parent).value.Regular?)
    }

    /** This is what planning found at some moment between two system calls. */
    ghost predicate FoundThen(name: string, parent: Parent, original: Option<Entry>, from: int, to: int) {
      exists n: nat :: from <= n <= to && original == Target(History([], 0, n), name, parent)
    }

    /** The planning loop: what each path refers to now. */
    method PlanTargets(names: seq<string>, parents: string -> Parent, overwrite: bool) returns (r: Result<seq<Option<Entry>>, Error>)
      requires Valid() && ours == 0 && published == []
      modifies this`files, this`script
      ensures Valid() && old(Begun()) <= Begun()
      ensures Quiet(old(script)) ==> Quiet(script) && files == old(files)
      ensures r.Ok? ==> |r.value| == |names| && forall i :: 0 <= i < |names| ==> Planned(r.value[i], overwrite)
      ensures r.Ok? ==> forall i :: 0 <= i < |names| ==> FoundThen(names[i], parents(names[i]), r.value[i], old(Begun()), Begun())
      ensures Quiet(old(script)) && r.Ok? ==> forall i :: 0 <= i < |names| ==> r.value[i] == Target(old(files), names[i], parents(names[i]))
      ensures Calm(old(script)) ==> Calm(script)
      ensures Calm(old(script)) ==>
        (r.Ok? <==> forall i :: 0 <= i < |names| ==> Plannable(old(files), names[i], parents(names[i]), overwrite))
    {
      var originals: seq<Option<Entry>> := [];
      for i := 0 to |names|
        invariant Valid() && old(Begun()) <= Begun()
        invariant Quiet(old(script)) ==> Quiet(script) && files == old(files)
        invariant Calm(old(script)) ==> Calm(script)
        invariant |originals| == i && forall j :: 0 <= j < i ==> Planned(originals[j], overwrite)
        invariant forall j :: 0 <= j < i ==> FoundThen(names[j], parents(names[j]), originals[j], old(Begun()), Begun())
        invariant Quiet(old(script)) ==> forall j :: 0 <= j < i ==> originals[j] == Target(old(files), names[j], parents(names[j]))
        invariant Calm(old(script)) ==> forall j :: 0 <= j < i ==> Plannable(old(files), names[j], parents(names[j]), overwrite)
      {
        var target := PlanTarget(names[i], parents(names[i]), overwrite);
        if target.Err? { return Err(target.error); }
        originals := originals + [target.value];
      }
      return Ok(originals);
    }

    /** Planning of one path. */
    method PlanTarget(name: string, parent: Parent, overwrite: bool) returns (r: Result<Option<Entry>, Error>)
      requires Valid() && ours == 0 && published == []
      modifies this`files, this`script
      ensures Valid() && old(Begun()) <= Begun()
      ensures Quiet(old(script)) ==> Quiet(script) && files == old(files)
      ensures r.Ok? ==> Planned(r.value, overwrite) && r.value == Target(files, name, parent)
      ensures r.Ok? ==> FoundThen(name, parent, r.value, old(Begun()), Begun())
      ensures Calm(old(script)) ==> Calm(script) && (r.Ok? <==> Plannable(old(files), name, parent, overwrite))
    {
      match parent {
        case Unusable => return Err(Io);
        case Missing => r := Ok(None);
        case Usable => r := CheckTarget(slotOf(name), overwrite);
      }
      assert files == History([], 0, Begun());
    }

    /** None of these names refers to the path. */
    predicate Apart(names: seq<string>, slot: nat) {
      forall i :: 0 <= i < |names| ==> slotOf(names[i]) != slot
    }

    predicate Here(current: Files, name: string) {
      var slot := slotOf(name);
      slot in current && current[slot].Regular? && current[slot].id.Ours? && Complete(name, current[slot].content)
    }

    predicate DistinctSlots(names: seq<string>) {
      forall i, j :: 0 <= i < j < |names| ==> slotOf(names[i]) != slotOf(names[j])
    }

    /** Published files stay where they are, at distinct slots, and nothing else changes. */
    ghost predicate OnlyPublished(before: Files, names: seq<string>)
      reads this
    {
      Published(before, files, names)
    }

    ghost predicate Published(before: Files, after: Files, names: seq<string>) {
      && (forall i :: 0 <= i < |names| ==> Here(after, names[i]))
      && DistinctSlots(names)
      && (forall s :: Apart(names, s) ==> At(after, s) == At(before, s))
    }

    lemma DistinctOneMore(names: seq<string>, name: string)
      ensures DistinctSlots(names + [name]) <==> DistinctSlots(names) && Apart(names, slotOf(name))
      ensures forall s :: Apart(names + [name], s) <==> Apart(names, s) && slotOf(name) != s
    {
      var all := names + [name];
      assert all[|names|] == name && forall i :: 0 <= i < |names| ==> all[i] == names[i];
      if DistinctSlots(all) {
        forall i, j | 0 <= i < j < |names| ensures slotOf(names[i]) != slotOf(names[j]) { assert all[i] == names[i] && all[j] == names[j]; }
      }
      forall s | Apart(all, s) ensures Apart(names, s) {
        forall i | 0 <= i < |names| ensures slotOf(names[i]) != s { assert all[i] == names[i]; }
      }
    }

    /** One more file lands on a slot of its own, because its slot held nothing of ours. */
    lemma OneMorePublished(before: Files, middle: Files, names: seq<string>, name: string, first: nat, next: nat)
      requires Landed(middle, files, name, first, next) && Published(before, middle, names)
      ensures OnlyPublished(before, names + [name])
    {
      DistinctOneMore(names, name);
      forall i | 0 <= i < |names| ensures Here(files, names[i]) && slotOf(names[i]) != slotOf(name) { assert Here(middle, names[i]); }
    }

    /** What is needed to fetch a file whose path was as planned in these files. */
    predicate Ready(before: Files, name: string, target: Option<Entry>, made: bool, expired: bool, printed: bool) {
      made && Fetchable(name) && !expired && printed && Unchanged(before, slotOf(name), target)
    }

    /** The first n names refer to different paths, and all is well with each of them. */
    ghost predicate ReadyUpTo(before: Files, names: seq<string>, targets: seq<Option<Entry>>,
      made: string -> bool, expired: string -> bool, printed: string -> bool, n: nat)
      requires n <= |names| == |targets|
    {
      && DistinctSlots(names[..n])
      && (forall i :: 0 <= i < n ==> Ready(before, names[i], targets[i], made(names[i]), expired(names[i]), printed(names[i])))
    }

    /** The publications are those of an initial segment of the names, as they were planned. */
    static ghost predicate InOrder(pubs: seq<Publication>, names: seq<string>, targets: seq<Option<Entry>>)
      requires |names| == |targets|
    {
      |pubs| <= |names| && forall i :: 0 <= i < |pubs| ==> pubs[i].name == names[i] && pubs[i].planned == targets[i]
    }

    static lemma InOrderStill(pubs: seq<Publication>, more: seq<Publication>, names: seq<string>, targets: seq<Option<Entry>>)
      requires |pubs| < |names| == |targets| && InOrder(pubs, names, targets)
      requires PublishedMore(pubs, more, names[|pubs|], targets[|pubs|])
      ensures InOrder(more, names, targets)
    {
      forall i | 0 <= i < |pubs| ensures more[i] == pubs[i] { assert more[..|pubs|][i] == pubs[i]; }
    }

    /** A path is still as planned after the earlier names were published, unless it is one of theirs. */
    lemma StillAsPlanned(before: Files, names: seq<string>, name: string, target: Option<Entry>)
      requires OnlyPublished(before, names) && (target.Some? ==> target.value.Regular? && target.value.id.Theirs?)
      ensures Unchanged(files, slotOf(name), target) <==> Unchanged(before, slotOf(name), target) && Apart(names, slotOf(name))
    {
      if Apart(names, slotOf(name)) {
        assert At(files, slotOf(name)) == At(before, slotOf(name));
      } else {
        var i :| 0 <= i < |names| && slotOf(names[i]) == slotOf(name);
        assert Here(files, names[i]);
      }
    }

    lemma ReadyEarlier(before: Files, names: seq<string>, targets: seq<Option<Entry>>,
      made: string -> bool, expired: string -> bool, printed: string -> bool, k: nat, n: nat)
      requires k <= n <= |names| == |targets|
      ensures ReadyUpTo(before, names, targets, made, expired, printed, n) ==> ReadyUpTo(before, names, targets, made, expired, printed, k)
    {
      if ReadyUpTo(before, names, targets, made, expired, printed, n) {
        forall i, j | 0 <= i < j < k ensures slotOf(names[..k][i]) != slotOf(names[..k][j]) {
          assert names[..k][i] == names[..n][i] && names[..k][j] == names[..n][j];
        }
      }
    }

    lemma ReadyOneMore(before: Files, names: seq<string>, targets: seq<Option<Entry>>,
      made: string -> bool, expired: string -> bool, printed: string -> bool, n: nat)
      requires n < |names| == |targets|
      ensures ReadyUpTo(before, names, targets, made, expired, printed, n + 1) <==>
        && ReadyUpTo(before, names, targets, made, expired, printed, n)
        && Ready(before, names[n], targets[n], made(names[n]), expired(names[n]), printed(names[n]))
        && Apart(names[..n], slotOf(names[n]))
    {
      assert names[..n + 1] == names[..n] + [names[n]];
      DistinctOneMore(names[..n], names[n]);
    }

    /** One file after the others; `undisturbed` and `calm` are what is known of the system calls from the beginning. */
    method PublishOne(done: seq<string>, name: string, target: Option<Entry>, made: bool, expired: bool, printed: bool,
      ghost before: Files, ghost undisturbed: bool, ghost calm: bool)
      returns (r: Result<(), Error>)
      requires Valid() && (target.Some? ==> target.value.Regular? && target.value.id.Theirs?)
      requires (undisturbed ==> Quiet(script) && OnlyPublished(before, done)) && (calm ==> undisturbed && Calm(script))
      modifies this`files, this`script, this`ours, this`published
      ensures Valid() && (published == old(published) || PublishedMore(old(published), published, name, target))
      ensures r.Ok? ==> published != old(published)
      ensures undisturbed ==> Quiet(script) && OnlyPublished(before, if published == old(published) then done else done + [name])
      ensures calm ==> Calm(script) && (r.Ok? <==> Ready(before, name, target, made, expired, printed) && Apart(done, slotOf(name)))
    {
      ghost var middle, first := files, ours;
      if undisturbed { StillAsPlanned(before, done, name, target); }
      var one := FetchFile(name, target, made, expired);
      if one.Err? { return Err(one.error); }
      if undisturbed { OneMorePublished(before, middle, done, name, first, ours); }
      return if printed then Ok(()) else Err(Io);
    }

    static predicate PublishedMore(before: seq<Publication>, after: seq<Publication>, name: string, target: Option<Entry>) {
      && |after| == |before| + 1 && after[..|before|] == before
      && after[|before|].name == name && after[|before|].planned == target
    }

    /** One turn of the loop over the accepted names. */
    method PublishNext(names: seq<string>, targets: seq<Option<Entry>>, i: nat, overwrite: bool,
      made: string -> bool, expired: string -> bool, printed: string -> bool, ghost before: Files, ghost undisturbed: bool, ghost calm: bool)
      returns (r: Result<(), Error>)
      requires Valid() && i < |names| == |targets| && Planned(targets[i], overwrite) && InOrder(published, names, targets) && |published| == i
      requires (undisturbed ==> Quiet(script) && OnlyPublished(before, names[..i])) && (calm ==> undisturbed && Calm(script))
      requires calm ==> ReadyUpTo(before, names, targets, made, expired, printed, i)
      modifies this`files, this`script, this`ours, this`published
      ensures Valid() && InOrder(published, names, targets) && i <= |published| <= i + 1 && (r.Ok? ==> |published| == i + 1)
      ensures undisturbed ==> Quiet(script) && OnlyPublished(before, names[..|published|])
      ensures calm ==> Calm(script) && (r.Ok? <==> ReadyUpTo(before, names, targets, made, expired, printed, i + 1))
    {
      ReadyOneMore(before, names, targets, made, expired, printed, i);
      ghost var earlier := published;
      r := PublishOne(names[..i], names[i], targets[i], made(names[i]), expired(names[i]), printed(names[i]), before, undisturbed, calm);
      if published != earlier { InOrderStill(earlier, published, names, targets); }
      assert names[..|published|] == if published == earlier then names[..i] else names[..i] + [names[i]];
    }

    /** The loop over the accepted names: each file is published before the next is begun. */
    method PublishAll(names: seq<string>, targets: seq<Option<Entry>>, overwrite: bool,
                      made: string -> bool, expired: string -> bool, printed: string -> bool) returns (r: Result<(), Error>)
      requires Valid() && published == [] && |targets| == |names|
      requires forall i :: 0 <= i < |targets| ==> Planned(targets[i], overwrite)
      modifies this`files, this`script, this`ours, this`published
      ensures Valid() && InOrder(published, names, targets)
      ensures r.Ok? ==> |published| == |names|
      ensures Quiet(old(script)) ==> OnlyPublished(old(files), names[..|published|])
      ensures Calm(old(script)) ==> (r.Ok? <==> ReadyUpTo(old(files), names, targets, made, expired, printed, |names|))
    {
      ghost var before, undisturbed, calm := files, Quiet(script), Calm(script);
      var i := 0;
      while i < |names|
        invariant Valid() && InOrder(published, names, targets) && |published| == i
        invariant undisturbed ==> Quiet(script) && OnlyPublished(before, names[..i])
        invariant calm ==> Calm(script) && ReadyUpTo(before, names, targets, made, expired, printed, i)
      {
        r := PublishNext(names, targets, i, overwrite, made, expired, printed, before, undisturbed, calm);
        if r.Err? {
          ReadyEarlier(before, names, targets, made, expired, printed, i + 1, |names|);
          return;
        }
        i := i + 1;
      }
      return Ok(());
    }

    /**
      The writing part of Fetch.  However it ends and whatever others do, the files are exactly what
      they and the recorded publications made of them; the published files are an initial segment
      of the names, each sound; nothing is published by a dry run or before planning is done, and
      without `overwrite` no existing file is ever replaced.  When no one interferes, exactly the
      published paths changed, and no published file was overwritten through another name.
    */
    method Run(names: seq<string>, parents: string -> Parent, overwrite: bool, dryRun: bool,
               made: string -> bool, expired: string -> bool, printed: string -> bool) returns (r: Result<(), Error>)
      requires Valid() && ours == 0 && published == []
      modifies this`files, this`script, this`ours, this`published
      ensures Valid() && Replayed()
      ensures |published| <= |names| && forall i :: 0 <= i < |published| ==> published[i].name == names[i]
      ensures r.Ok? ==> |published| == if dryRun then 0 else |names|
      ensures dryRun ==> published == []
      ensures !overwrite ==> NothingReplaced()
      ensures Quiet(old(script)) ==> OnlyPublished(old(files), names[..|published|])
      ensures Calm(old(script)) ==> (r.Ok? <==> AllGood(old(files), names, parents, overwrite, dryRun, made, expired, printed))
    {
      var targets := PlanTargets(names, parents, overwrite);
      if targets.Err? { return Err(targets.error); }
      if dryRun {
        r := PrintAll(names, printed);
        return;
      }
      assert Quiet(old(script)) ==> targets.value == Targets(old(files), names, parents);
      r := PublishAll(names, targets.value, overwrite, made, expired, printed);
      assert !overwrite ==> forall i: nat :: i < |published| && Sound(published, i) ==> Replaced(published, i).None?;
    }

    /** When nobody interferes and no call fails, this is what a fetch needs to succeed. */
    ghost predicate AllGood(before: Files, names: seq<string>, parents: string -> Parent, overwrite: bool, dryRun: bool,
      made: string -> bool, expired: string -> bool, printed: string -> bool)
    {
      && (forall i :: 0 <= i < |names| ==> Plannable(before, names[i], parents(names[i]), overwrite))
      && if dryRun then forall i :: 0 <= i < |names| ==> printed(names[i])
         else ReadyUpTo(before, names, Targets(before, names, parents), made, expired, printed, |names|)
    }

    /** The files are what others' steps and the recorded publications, each sound, made of them in order. */
    ghost predicate Replayed()
      reads this
    {
      0 <= Begun() && AllSound(published) && files == History(published, |published|, Begun())
    }

    /** No publication found anything at its path. */
    ghost predicate NothingReplaced()
      reads this
    {
      forall i: nat {:trigger Sound(published, i)} :: i < |published| ==> Replaced(published, i).None?
    }

    /** A dry run only names the files. */
    method PrintAll(names: seq<string>, printed: string -> bool) returns (r: Result<(), Error>)
      ensures r.Ok? <==> forall i :: 0 <= i < |names| ==> printed(names[i])
    {
      for i := 0 to |names|
        invariant forall j :: 0 <= j < i ==> printed(names[j])
      {
        if !printed(names[i]) { return Err(Io); }
      }
      return Ok(());
    }

    /**
      Fetch, from the listing to the last file.  A refused selection writes nothing; otherwise,
      however it ends, the published files are an initial segment of the selection in sorted order:
      safe names, each once and none the ancestor of another, each file sound.
    */
    method FetchTask(keys: seq<string>, source: string, reserved: string -> bool, wanted: string -> bool,
                     parents: string -> Parent, overwrite: bool, dryRun: bool,
                     made: string -> bool, expired: string -> bool, printed: string -> bool)
      returns (r: Result<(), Failure>)
      requires Valid() && ours == 0 && published == []
      modifies this`files, this`script, this`ours, this`published
      ensures Valid() && Replayed()
      ensures
        var names := FetchPlan.Sort(FetchPlan.Taken(keys, source, reserved, wanted));
        && |published| <= |names| && (forall i :: 0 <= i < |published| ==> published[i].name == names[i])
        && (Quiet(old(script)) ==> OnlyPublished(old(files), names[..|published|]))
        && (r.Ok? ==> |published| == if dryRun then 0 else |names|)
        && (r.Ok? ==> FetchPlan.Selects(names, keys, source, wanted))
        && (Calm(old(script)) && FetchPlan.Acceptable(keys, source, reserved, wanted) ==>
             (r.Ok? <==> AllGood(old(files), names, parents, overwrite, dryRun, made, expired, printed)))
      ensures !FetchPlan.Acceptable(keys, source, reserved, wanted) <==> r.Err? && r.error.Refused?
      ensures !FetchPlan.Acceptable(keys, source, reserved, wanted) ==>
        published == [] && files == old(files) && script == old(script)
      ensures forall i, j :: 0 <= i < j < |published| ==>
        && published[i].name != published[j].name && !FetchPlan.Ancestor(published[i].name, published[j].name)
        && !FetchPlan.Ancestor(published[j].name, published[i].name)
      ensures dryRun ==> published == []
      ensures !overwrite ==> NothingReplaced()
    {
      var plan := FetchPlan.Plan(keys, source, reserved, wanted);
      if plan.Err? { return Err(Refused(plan.error)); }
      ghost var names := FetchPlan.Sort(FetchPlan.Taken(keys, source, reserved, wanted));
      FetchPlan.AcceptedAreApart(FetchPlan.Taken(keys, source, reserved, wanted));
      var run := Run(plan.value, parents, overwrite, dryRun, made, expired, printed);
      return if run.Ok? then Ok(()) else Err(Stopped(run.error));
    }
  }

  datatype Parent = Missing | Usable | Unusable

  /** What planning may record: nothing, or with `overwrite` a regular file of others. */
  predicate Planned(original: Option<Entry>, overwrite: bool) {
    original.Some? ==> overwrite && original.value.Regular? && original.value.id.Theirs?
  }
}

/**
  One worker's own code for outcomes, as it runs: save, recoverCompletions, finishTask, processTask
  and Run over the journal directory and the task table, while other processes act between any two
  calls.
*/
module Worker {
  import opened Wrappers
  import opened Tasks
  import opened Journal
  import opened Interplay
  import TaskTable

  class Worker {
    /** The database and the journal at the beginning. */
    const startDb: Db
    const startFs: Fs
    var db: Db
    var fs: Fs
    var script: seq<Call>
    /** Everything that happened to them since. */
    ghost var story: Story
    /** Outcomes whose task files were cleaned up. */
    var cleaned: seq<Completion>

    /** Task files were removed only for outcomes that cannot be lost. */
    ghost predicate Valid()
      reads this
    {
      && World(db, fs) && (forall i :: 0 <= i < |cleaned| ==> Guarded(db, fs, cleaned[i]))
      && Tells(story, (startDb, startFs), db, fs) && FromTheJournal(story)
    }

    /** What we did so far. */
    ghost function Ours(): Deeds
      reads this`story
    {
      DeedsIn(story)
    }

    /** The journal holds this very record, or did at some point. */
    ghost predicate Seen(c: Completion)
      reads this`story, this`fs
    {
      Holds(fs, fs.dir, c) || Shown(story, c)
    }

    /** Every claim of ours so far was issued when the journal held no record. */
    ghost predicate ClaimsOverEmpty()
      reads this`story
    {
      forall i :: 0 <= i < |Ours().claims| ==> Ours().claims[i].names == {}
    }

    /** A past claim stays past, and settled, requested to stop, or gone once it is. */
    static predicate Onward(db: Db, db': Db, k: Claim) {
      Past(db, k) ==>
        && Past(db', k) && (Over(db, k) ==> Over(db', k))
        && (Gone(db, k) ==> Gone(db', k)) && (Called(db, k) ==> Called(db', k))
    }

    constructor (db: Db, fs: Fs, script: seq<Call>)
      requires World(db, fs)
      ensures Valid() && this.db == db && this.fs == fs && this.script == script && cleaned == [] && Ours() == Deeds([], [], [])
      ensures startDb == db && startFs == fs
    {
      startDb, startFs, this.db, this.fs, this.script, cleaned, story := db, fs, db, fs, script, [], Begin;
    }

    /** The start of one of our calls: others act first. */
    method Enter(ours: Option<nat>, ghost c: Completion) returns (reply: Reply)
      requires Valid()
      modifies this`db, this`fs, this`story, this`script
      ensures (db, fs) == Met(old(db), old(fs), old(script), ours)
      ensures reply == ReplyOf(old(script)) && script == Rest(old(script))
      ensures Ours() == old(Ours()) && (old(Seen(c)) ==> Seen(c))
      ensures Valid() && Onward(old(db), db, c.claim) && Progress(old(db), old(fs), db, fs)
      ensures Linked(old(db), old(fs), c) ==> Linked(db, fs, c)
      ensures Guarded(old(db), old(fs), c) ==> Guarded(db, fs, c)
      ensures ours.Some? ==> SameFile(old(fs), fs, ours.value)
      ensures Alone(old(script)) ==> Alone(script) && db == old(db) && fs == old(fs)
      ensures if old(script) == [] then reply == Works && script == [] && fs == old(fs) else |script| < |old(script)|
      ensures Reliable(old(script)) ==> Reliable(script) && reply.Works?
    {
      if script == [] { return Works; }
      var call := script[0];
      OthersAreSafe(db, fs, call.others, ours);
      var next := ActAll(db, fs, call.others, ours);
      story := Then(story, db, fs, Theirs(call.others, ours));
      db, fs, script := next.0, next.1, script[1..];
      return call.reply;
    }

    /** One of our own steps, which keeps the same rules; outcomes are sent only as the journal had them. */
    method Do(op: Other, ghost c: Completion, ghost answered: bool)
      requires Valid() && Fair(db, fs, op, None) && (op.db.Complete? ==> Seen(op.db.completion))
      modifies this`db, this`fs, this`story
      ensures Valid() && Onward(old(db), db, c.claim) && Progress(old(db), old(fs), db, fs)
      ensures db == DbDo(old(db), op.db) && fs == FsDo(old(fs), op.fs)
      ensures Ours() == Done(old(Ours()), old(db), old(fs), op, answered) && (old(Seen(c)) ==> Seen(c))
      ensures Linked(old(db), old(fs), c) ==> Linked(db, fs, c)
      ensures Guarded(old(db), old(fs), c) ==> Guarded(db, fs, c)
    {
      OneActIsSafe(db, fs, op, None);
      story := Then(story, db, fs, Mine(op, answered));
      db, fs := DbDo(db, op.db), FsDo(fs, op.fs);
    }

    /** A name no file uses. */
    method NewInode() returns (ino: nat)
      ensures ino !in fs.files
    {
      ino := 0;
      ghost var used: set<nat> := {};
      while ino in fs.files
        invariant used <= fs.files.Keys && forall i :: i in used <==> 0 <= i < ino
        decreases |fs.files.Keys - used|
      {
        assert fs.files.Keys - (used + {ino}) < fs.files.Keys - used;
        SmallerSet(fs.files.Keys - (used + {ino}), fs.files.Keys - used);
        used := used + {ino};
        ino := ino + 1;
      }
    }

    /** A new empty temporary file. */
    method CreateFile(c: Completion) returns (ino: Option<nat>)
      requires Valid()
      modifies this`db, this`fs, this`story, this`script
      ensures Ours() == old(Ours())
      ensures Valid() && Onward(old(db), db, c.claim)
      ensures ino.Some? ==> ino.value in fs.files && fs.files[ino.value] == File(None, false)
      ensures Keeps(old(db), db)
      ensures Alone(old(script)) ==> Alone(script) && db == old(db) && fs.dir == old(fs.dir) && FilesKept(old(fs), fs)
      ensures Alone(old(script)) && ino.Some? ==> ino.value !in old(fs.files)
      ensures (ino.Some? <==> ReplyOf(old(script)).Works?) && script == Rest(old(script))
      ensures Reliable(old(script)) ==> Reliable(script) && ino.Some?
    {
      var create := Enter(None, c);
      if !create.Works? { return None; }
      var i := NewInode();
      Do(Other(Nothing, CreateTemp(i)), c, true);
      return Some(i);
    }

    method WriteFile(ino: nat, c: Completion) returns (ok: bool)
      requires Valid() && ino in fs.files && fs.files[ino] == File(None, false)
      modifies this`db, this`fs, this`story, this`script
      ensures Ours() == old(Ours())
      ensures Valid() && Onward(old(db), db, c.claim)
      ensures ok ==> ino in fs.files && fs.files[ino] == File(Some(c), false)
      ensures (ok <==> ReplyOf(old(script)).Works?) && script == Rest(old(script))
      ensures Keeps(old(db), db)
      ensures Alone(old(script)) ==> Alone(script) && db == old(db) && fs.dir == old(fs.dir) && OtherFilesKept(old(fs), fs, ino)
      ensures Reliable(old(script)) ==> Reliable(script) && ok
    {
      var encode := Enter(Some(ino), c);
      if !encode.Works? { return false; }
      Do(Other(Nothing, Encode(ino, c)), c, true);
      return true;
    }

    method SyncAndClose(ino: nat, c: Completion) returns (ok: bool)
      requires Valid() && ino in fs.files && fs.files[ino] == File(Some(c), false)
      modifies this`db, this`fs, this`story, this`script
      ensures Ours() == old(Ours())
      ensures Valid() && Onward(old(db), db, c.claim)
      ensures ok ==> ino in fs.files && fs.files[ino] == File(Some(c), true)
      ensures ok <==> AllWork(old(script), 2)
      ensures Keeps(old(db), db)
      ensures Alone(old(script)) ==> Alone(script) && db == old(db) && fs.dir == old(fs.dir) && OtherFilesKept(old(fs), fs, ino)
      ensures Reliable(old(script)) ==> Reliable(script) && ok
    {
      TwoCalls(script);
      var sync := Enter(Some(ino), c);
      if !sync.Works? { return false; }
      Do(Other(Nothing, SyncFile(ino)), c, true);
      var close := Enter(Some(ino), c);
      return close.Works?;
    }

    /** os.Link: None is an error, false that the name exists. */
    method TryLink(c: Completion, ino: nat) returns (linked: Option<bool>)
      requires Valid() && Past(db, c.claim) && Validate(c)
      requires ino in fs.files && fs.files[ino] == File(Some(c), true)
      modifies this`db, this`fs, this`story, this`script
      ensures Ours() == if linked == Some(true) then old(Ours()).(records := old(Ours()).records + [c]) else old(Ours())
      ensures Valid() && Onward(old(db), db, c.claim) && Past(db, c.claim) && Keeps(old(db), db)
      ensures ino in fs.files && fs.files[ino] == File(Some(c), true)
      ensures linked == Some(true) ==> Holds(fs, fs.dir, c)
      ensures linked == Some(false) ==> c.claim in fs.dir
      ensures linked.Some? <==> ReplyOf(old(script)).Works?
      ensures if old(script) == [] then linked.Some? && script == [] else |script| < |old(script)|
      ensures Alone(old(script)) ==> Alone(script) && db == old(db)
      ensures Alone(old(script)) ==> fs == if linked == Some(true) then old(fs).(dir := old(fs.dir)[c.claim := ino]) else old(fs)
      ensures Alone(old(script)) && linked == Some(true) ==> c.claim !in old(fs.dir)
      ensures Reliable(old(script)) ==> Reliable(script) && linked.Some?
    {
      var link := Enter(Some(ino), c);
      if !link.Works? { return None; }
      if c.claim in fs.dir { return Some(false); }
      Do(Other(Nothing, Link(c.claim, ino)), c, true);
      return Some(true);
    }

    /** read: None is an error, Some(None) that there is no such record any more. */
    method Read(k: Claim, ours: Option<nat>) returns (record: Option<Option<Completion>>)
      requires Valid()
      modifies this`db, this`fs, this`story, this`script
      ensures Ours() == old(Ours())
      ensures Valid() && Onward(old(db), db, k) && Progress(old(db), old(fs), db, fs)
      ensures ours.Some? ==> SameFile(old(fs), fs, ours.value)
      ensures record.Some? && record.value.Some? ==>
        record.value.value.claim == k && Validate(record.value.value) && Past(db, k) && Holds(fs, fs.dir, record.value.value)
      ensures Alone(old(script)) ==> Alone(script) && db == old(db) && fs == old(fs)
      ensures Alone(old(script)) && record == Some(None) ==> k !in old(fs.dir)
      ensures if old(script) == [] then script == [] && fs == old(fs) && record.Some? else |script| < |old(script)|
      ensures record == Some(None) ==> k !in fs.dir
      ensures record.Some? <==> ReplyOf(old(script)).Works?
      ensures Reliable(old(script)) ==> Reliable(script) && record.Some?
    {
      var read := Enter(ours, Completion(k, SOME_OUTCOME));
      if !read.Works? { return None; }
      if k !in fs.dir { return Some(None); }
      return Some(Some(ReadRecord(fs, k)));
    }

    /** The journal's directory exists. */
    method Init(c: Completion) returns (ok: bool)
      requires Valid()
      modifies this`db, this`fs, this`story, this`script
      ensures Ours() == old(Ours())
      ensures Valid() && Onward(old(db), db, c.claim) && Keeps(old(db), db)
      ensures (db, fs) == Met(old(db), old(fs), old(script), None)
      ensures Alone(old(script)) ==> Alone(script) && db == old(db) && fs == old(fs)
      ensures (ok <==> ReplyOf(old(script)).Works?) && script == Rest(old(script))
      ensures Reliable(old(script)) ==> Reliable(script) && ok
    {
      var init := Enter(None, c);
      return init.Works?;
    }

    /** The complete, synced temporary file. */
    method Prepare(c: Completion) returns (r: Option<nat>)
      requires Valid()
      modifies this`db, this`fs, this`story, this`script
      ensures Ours() == old(Ours())
      ensures Valid() && Onward(old(db), db, c.claim)
      ensures r.Some? ==> r.value in fs.files && fs.files[r.value] == File(Some(c), true)
      ensures r.Some? <==> AllWork(old(script), 5)
      ensures Keeps(old(db), db)
      ensures Alone(old(script)) ==> Alone(script) && db == old(db) && fs.dir == old(fs.dir) && FilesKept(old(fs), fs)
      ensures Reliable(old(script)) ==> Reliable(script) && r.Some?
    {
      CallsInTurn(script, 4);
      var ok := Init(c);
      if !ok { return None; }
      r := Fill(c);
    }

    /** A new file with the record in it, synced. */
    method Fill(c: Completion) returns (r: Option<nat>)
      requires Valid()
      modifies this`db, this`fs, this`story, this`script
      ensures Ours() == old(Ours())
      ensures Valid() && Onward(old(db), db, c.claim)
      ensures r.Some? ==> r.value in fs.files && fs.files[r.value] == File(Some(c), true)
      ensures r.Some? <==> AllWork(old(script), 4)
      ensures Keeps(old(db), db)
      ensures Alone(old(script)) ==> Alone(script) && db == old(db) && fs.dir == old(fs.dir) && FilesKept(old(fs), fs)
      ensures Reliable(old(script)) ==> Reliable(script) && r.Some?
    {
      CallsInTurn(script, 3);
      CallsInTurn(Rest(script), 2);
      var ino := CreateFile(c);
      if ino.None? { return None; }
      var written := WriteFile(ino.value, c);
      if !written { return None; }
      var synced := SyncAndClose(ino.value, c);
      return if synced then ino else None;
    }

    /** One turn of save's loop: the record under our name now, an error, or that it vanished and we try again. */
    method PublishOnce(c: Completion, ino: nat) returns (record: Option<Completion>, again: bool)
      requires Valid() && Past(db, c.claim) && Validate(c)
      requires ino in fs.files && fs.files[ino] == File(Some(c), true)
      modifies this`db, this`fs, this`story, this`script
      ensures Valid() && Onward(old(db), db, c.claim) && Past(db, c.claim) && Wrote(c, old(Ours()))
      ensures again ==> ino in fs.files && fs.files[ino] == File(Some(c), true) && |script| < |old(script)| && Ours() == old(Ours())
      ensures record.Some? ==> record.value.claim == c.claim && Validate(record.value) && Holds(fs, fs.dir, record.value)
      ensures Keeps(old(db), db)
      ensures Alone(old(script)) ==> Alone(script) && db == old(db) && fs.files == old(fs.files) && !again
      ensures Alone(old(script)) && record.Some? ==>
        record.value == Chosen(old(fs), c) && c.claim in fs.dir && fs.dir - {c.claim} == old(fs.dir) - {c.claim}
      ensures Reliable(old(script)) ==> Reliable(script) && (record.Some? || again)
    {
      var linked := TryLink(c, ino);
      if linked.None? { return None, false; }
      if linked.value { return Some(c), false; }
      var previous := Read(c.claim, Some(ino));
      if previous.None? { return None, false; }
      return previous.value, previous.value.None?;
    }

    /** We linked at most this record, and did nothing else outside. */
    ghost predicate Wrote(c: Completion, before: Deeds)
      reads this`story
    {
      Ours() == before || Ours() == before.(records := before.records + [c])
    }

    /** The loop of save: link the file, or take the record that is there, unless it vanishes first. */
    method Publish(c: Completion, ino: nat) returns (r: Option<Completion>)
      requires Valid() && Past(db, c.claim) && Validate(c)
      requires ino in fs.files && fs.files[ino] == File(Some(c), true)
      modifies this`db, this`fs, this`story, this`script
      ensures Wrote(c, old(Ours())) && Keeps(old(db), db)
      ensures Valid() && Onward(old(db), db, c.claim)
      ensures r.Some? ==> r.value.claim == c.claim && Validate(r.value) && Past(db, c.claim) && Holds(fs, fs.dir, r.value)
      ensures Alone(old(script)) ==> Alone(script) && db == old(db) && fs.files == old(fs.files)
      ensures Alone(old(script)) && r.Some? ==>
        r.value == Chosen(old(fs), c) && c.claim in fs.dir && fs.dir - {c.claim} == old(fs.dir) - {c.claim}
      ensures Reliable(old(script)) ==> Reliable(script) && r.Some?
    {
      while true
        invariant Valid() && Onward(old(db), db, c.claim) && Past(db, c.claim) && Ours() == old(Ours()) && Keeps(old(db), db)
        invariant ino in fs.files && fs.files[ino] == File(Some(c), true)
        invariant Alone(old(script)) ==> Alone(script) && db == old(db) && fs == old(fs)
        invariant Reliable(old(script)) ==> Reliable(script)
        decreases |script|
      {
        var again;
        r, again := PublishOnce(c, ino);
        if !again { return; }
      }
      return None;
    }

    /** save: publish a complete record without replacing an earlier outcome of the same claim. */
    method Save(c: Completion) returns (r: Result<Completion, Error>)
      requires Valid() && Past(db, c.claim)
      modifies this`db, this`fs, this`story, this`script
      ensures Wrote(c, old(Ours())) && Keeps(old(db), db)
      ensures Valid() && Onward(old(db), db, c.claim)
      ensures !Validate(c) ==> r == Err(Invalid)
      ensures r.Ok? ==> r.value.claim == c.claim && Validate(r.value) && Guarded(db, fs, r.value) && Seen(r.value)
      ensures Alone(old(script)) ==> Alone(script) && db == old(db)
      ensures Alone(old(script)) && r.Ok? ==>
        Kept(fs, r.value) && r.value == Chosen(old(fs), c) && KeptBeside(old(fs), fs, c.claim)
      ensures Reliable(old(script)) ==> Reliable(script) && (r.Ok? <==> Validate(c))
    {
      if !Validate(c) { return Err(Invalid); }
      var record := Record(c);
      if record.None? { return Err(Io); }
      r := SyncJournal(record.value);
    }

    /** A record under the claim's name: ours, or the one that is there. */
    method Record(c: Completion) returns (r: Option<Completion>)
      requires Valid() && Past(db, c.claim) && Validate(c)
      modifies this`db, this`fs, this`story, this`script
      ensures Wrote(c, old(Ours())) && Keeps(old(db), db)
      ensures Valid() && Onward(old(db), db, c.claim)
      ensures r.Some? ==> r.value.claim == c.claim && Validate(r.value) && Linked(db, fs, r.value) && Holds(fs, fs.dir, r.value)
      ensures Alone(old(script)) ==> Alone(script) && db == old(db)
      ensures Alone(old(script)) && r.Some? ==> r.value == Chosen(old(fs), c) && KeptBeside(old(fs), fs, c.claim)
      ensures Reliable(old(script)) ==> Reliable(script) && r.Some?
    {
      var ino := Prepare(c);
      if ino.None? { return None; }
      ChosenStays(old(fs), fs, c);
      r := Publish(c, ino.value);
    }

    /** A new temporary file is no record. */
    static lemma ChosenStays(fs: Fs, fs': Fs, c: Completion)
      requires FsInv(fs) && FsInv(fs')
      ensures fs'.dir == fs.dir && FilesKept(fs, fs') ==> Chosen(fs', c) == Chosen(fs, c)
    {
      if c.claim in fs.dir { assert Sound(fs, fs.dir, c.claim); }
    }

    /** syncDirectory: from here on a power loss leaves the record. */
    method SyncJournal(c: Completion) returns (r: Result<Completion, Error>)
      requires Valid() && Linked(db, fs, c)
      modifies this`db, this`fs, this`story, this`script
      ensures Ours() == old(Ours())
      ensures Valid() && Onward(old(db), db, c.claim)
      ensures r.Ok? ==> r.value == c && Guarded(db, fs, c)
      ensures r.Ok? <==> ReplyOf(old(script)).Works?
      ensures Keeps(old(db), db) && (old(Seen(c)) ==> Seen(c))
      ensures Alone(old(script)) ==> Alone(script) && db == old(db) && fs.dir == old(fs.dir) && fs.files == old(fs.files)
      ensures Alone(old(script)) && r.Ok? && Holds(old(fs), old(fs.dir), c) ==> Kept(fs, c)
      ensures Reliable(old(script)) ==> Reliable(script) && r.Ok?
    {
      var sync := Enter(None, c);
      if !sync.Works? { return Err(Io); }
      Do(Other(Nothing, SyncDirectory), c, true);
      return Ok(c);
    }

    /** We sent this outcome any number of times, and did nothing else outside. */
    static ghost predicate SentOnly(before: Deeds, after: Deeds, c: Completion) {
      after == before.(sent := after.sent) && Only(before.sent, after.sent, c)
    }

    static lemma SentAgain(before: Deeds, middle: Deeds, after: Deeds, c: Completion)
      ensures SentOnly(before, middle, c) && SentOnly(middle, after, c) ==> SentOnly(before, after, c)
    {
    }

    /** complete_claim.sql once: its answer, or none, and then whether to try again. */
    method CompleteOnce(c: Completion) returns (answer: Option<bool>, again: bool)
      requires Valid() && Past(db, c.claim) && Validate(c) && Seen(c)
      modifies this`db, this`fs, this`story, this`script
      ensures SentOnly(old(Ours()), Ours(), c) && Seen(c) && (answer.Some? ==> |Ours().sent| > |old(Ours()).sent|)
      ensures Valid() && Onward(old(db), db, c.claim) && Progress(old(db), old(fs), db, fs)
      ensures Guarded(old(db), old(fs), c) ==> Guarded(db, fs, c)
      ensures answer.Some? ==> Settled(db, c.claim)
      ensures answer == Some(true) ==> Matches(db, c.claim) && SameOutcome(db.rows[c.claim.task], c.outcome)
      ensures again ==> answer.None? && |script| < |old(script)|
      ensures answer.Some? <==> ReplyOf(old(script)).Works?
      ensures again <==> ReplyOf(old(script)).Fails? || ReplyOf(old(script)).ReplyLost?
      ensures fs == Met(old(db), old(fs), old(script), None).1
      ensures var met := Met(old(db), old(fs), old(script), None).0;
        db == if ReplyOf(old(script)).Works? || ReplyOf(old(script)).ReplyLost? then DbDo(met, Complete(c)) else met
      ensures script == Rest(old(script))
      ensures Alone(old(script)) ==> Alone(script) && fs == old(fs)
      ensures Alone(old(script)) ==> db == old(db) || db == DbDo(old(db), Complete(c))
      ensures Alone(old(script)) && answer.Some? ==> db == DbDo(old(db), Complete(c)) && answer.value == Confirms(old(db), c)
      ensures Reliable(old(script)) ==> Reliable(script) && answer.Some?
    {
      NothingSent(Ours(), c);
      var reply := Enter(None, c);
      if reply.FailsForGood? || reply.Fails? { return None, reply.Fails?; }
      ghost var middle, journal := db, fs;
      var confirmed := Apply(c, reply.Works?);
      ProgressGoesOn(old(db), old(fs), middle, journal, db, fs);
      return if reply.Works? then Some(confirmed) else None, !reply.Works?;
    }

    static lemma NothingSent(d: Deeds, c: Completion)
      ensures SentOnly(d, d, c)
    {
    }

    /** The statement itself, and what it answers. */
    method Apply(c: Completion, ghost answered: bool) returns (confirmed: bool)
      requires Valid() && Past(db, c.claim) && Validate(c) && Seen(c)
      modifies this`db, this`fs, this`story
      ensures SentOnly(old(Ours()), Ours(), c) && Seen(c) && |Ours().sent| > |old(Ours()).sent|
      ensures Valid() && Onward(old(db), db, c.claim) && Progress(old(db), old(fs), db, fs)
      ensures Guarded(old(db), old(fs), c) ==> Guarded(db, fs, c)
      ensures Settled(db, c.claim) && confirmed == Confirms(old(db), c)
      ensures confirmed ==> Matches(db, c.claim) && SameOutcome(db.rows[c.claim.task], c.outcome)
      ensures db == DbDo(old(db), Complete(c)) && fs == old(fs)
    {
      confirmed := Confirms(db, c);
      AnswerSettles(db, c);
      Do(Other(Complete(c), Quiet), c, answered);
    }

    /** Repeating the statement changes nothing more, and gets the same answer. */
    static lemma AgainIsTheSame(db: Db, c: Completion)
      ensures DbDo(DbDo(db, Complete(c)), Complete(c)) == DbDo(db, Complete(c))
      ensures Validate(c) ==> Confirms(DbDo(db, Complete(c)), c) == Confirms(db, c)
    {
    }

    /** saveCompletion: the same statement again after every failure or lost reply. */
    method SaveCompletion(c: Completion) returns (r: Result<bool, Error>)
      requires Valid() && Past(db, c.claim) && Validate(c) && Seen(c)
      modifies this`db, this`fs, this`story, this`script
      ensures SentOnly(old(Ours()), Ours(), c) && (r.Ok? ==> |Ours().sent| > |old(Ours()).sent|)
      ensures Valid() && Onward(old(db), db, c.claim) && Progress(old(db), old(fs), db, fs)
      ensures Guarded(old(db), old(fs), c) ==> Guarded(db, fs, c)
      ensures r.Ok? ==> Settled(db, c.claim)
      ensures r == Ok(true) ==> Matches(db, c.claim) && SameOutcome(db.rows[c.claim.task], c.outcome)
      ensures r.Ok? <==> Answered(old(script))
      ensures Alone(old(script)) ==> Alone(script) && fs == old(fs)
      ensures Alone(old(script)) && r.Ok? ==> db == DbDo(old(db), Complete(c)) && r.value == Confirms(old(db), c)
      ensures Reliable(old(script)) ==> Reliable(script) && r.Ok?
    {
      AgainIsTheSame(db, c);
      while true
        invariant Valid() && Onward(old(db), db, c.claim) && Progress(old(db), old(fs), db, fs) && SentOnly(old(Ours()), Ours(), c) && Seen(c)
        invariant Guarded(old(db), old(fs), c) ==> Guarded(db, fs, c)
        invariant Alone(old(script)) ==> Alone(script) && fs == old(fs)
        invariant Reliable(old(script)) ==> Reliable(script)
        invariant Alone(old(script)) ==> db == old(db) || db == DbDo(old(db), Complete(c))
        invariant Answered(script) <==> Answered(old(script))
        decreases |script|
      {
        ghost var before := Ours();
        var answer, again := CompleteOnce(c);
        SentAgain(old(Ours()), before, Ours(), c);
        if answer.Some? { return Ok(answer.value); }
        if !again { return Err(Database); }
      }
      return Err(Database);
    }

    /** acknowledge: only a settled claim loses its record. */
    method Acknowledge(c: Completion) returns (ok: bool)
      requires Valid() && Past(db, c.claim) && Settled(db, c.claim)
      modifies this`db, this`fs, this`story, this`script
      ensures Ours() == old(Ours())
      ensures Valid() && Onward(old(db), db, c.claim) && Progress(old(db), old(fs), db, fs)
      ensures Alone(old(script)) ==> Alone(script) && db == old(db) && fs.files == old(fs.files)
      ensures Alone(old(script)) && ok ==> fs.dir == old(fs.dir) - {c.claim}
      ensures (ok <==> AllWork(old(script), 2)) && (ok ==> fs.disk == fs.dir)
      ensures Reliable(old(script)) ==> Reliable(script) && ok
    {
      TwoCalls(script);
      ok := RemoveRecord(c);
      if !ok { return; }
      ghost var middle, journal := db, fs;
      ok := SyncRemoval(c);
      ProgressGoesOn(old(db), old(fs), middle, journal, db, fs);
    }

    /** The record's name goes. */
    method RemoveRecord(c: Completion) returns (ok: bool)
      requires Valid() && Past(db, c.claim) && Settled(db, c.claim)
      modifies this`db, this`fs, this`story, this`script
      ensures Ours() == old(Ours())
      ensures Valid() && Onward(old(db), db, c.claim) && Progress(old(db), old(fs), db, fs)
      ensures Alone(old(script)) ==> Alone(script) && db == old(db) && fs.files == old(fs.files)
      ensures ok ==> fs.dir == Met(old(db), old(fs), old(script), None).1.dir - {c.claim}
      ensures !ok ==> (db, fs) == Met(old(db), old(fs), old(script), None)
      ensures (ok <==> ReplyOf(old(script)).Works?) && script == Rest(old(script))
      ensures Reliable(old(script)) ==> Reliable(script) && ok
    {
      var remove := Enter(None, c);
      if !remove.Works? { return false; }
      Do(Other(Nothing, Remove(c.claim)), c, true);
      return true;
    }

    /** And the directory is synced. */
    method SyncRemoval(c: Completion) returns (ok: bool)
      requires Valid()
      modifies this`db, this`fs, this`story, this`script
      ensures Ours() == old(Ours())
      ensures Valid() && Onward(old(db), db, c.claim) && Progress(old(db), old(fs), db, fs)
      ensures Alone(old(script)) ==> Alone(script) && db == old(db) && fs.files == old(fs.files) && fs.dir == old(fs.dir)
      ensures ok ==> fs.disk == fs.dir
      ensures !ok ==> (db, fs) == Met(old(db), old(fs), old(script), None)
      ensures ok <==> ReplyOf(old(script)).Works?
      ensures Reliable(old(script)) ==> Reliable(script) && ok
    {
      var sync := Enter(None, c);
      if !sync.Works? { return false; }
      Do(Other(Nothing, SyncDirectory), c, true);
      return true;
    }

    /** What finishTask and recoverCompletions do with a record: commit the outcome, then acknowledge. */
    method CommitRecord(c: Completion) returns (r: Result<(), Error>)
      requires Valid() && Past(db, c.claim) && Validate(c) && Seen(c)
      modifies this`db, this`fs, this`story, this`script
      ensures SentOnly(old(Ours()), Ours(), c) && (r.Ok? ==> |Ours().sent| > |old(Ours()).sent|)
      ensures Valid() && Onward(old(db), db, c.claim) && Progress(old(db), old(fs), db, fs)
      ensures r.Ok? ==> Settled(db, c.claim)
      ensures Alone(old(script)) ==> Alone(script) && fs.files == old(fs.files)
      ensures Alone(old(script)) && r.Ok? ==> db == DbDo(old(db), Complete(c)) && fs.dir == old(fs.dir) - {c.claim}
      ensures Reliable(old(script)) ==> Reliable(script) && r.Ok?
    {
      var confirmed := SaveCompletion(c);
      if confirmed.Err? { return Err(confirmed.error); }
      var gone := Acknowledge(c);
      return if gone then Ok(()) else Err(Io);
    }

    /** We linked at most the outcome built for this claim, and sent nothing but `sent`; nothing at all unless task files went. */
    ghost predicate Settling(c: Completion, sent: Option<Completion>, before: Deeds)
      reads this`story
    {
      && Ours().claims == before.claims && AtMost(before.records, Ours().records, c)
      && if sent.Some? then sent.value.claim == c.claim && Only(before.sent, Ours().sent, sent.value) else Ours().sent == before.sent
    }

    /**
      finishTask: journal, then clean up, then commit, then acknowledge.  The files go only when
      the outcome cannot be lost; after success the claim is settled; after a failure that came
      later than the journal the outcome is still safe.  What is journaled is the outcome built, and
      what is sent is the record the files were cleaned up for.
    */
    method FinishTask(k: Claim, code: int, cancelled: bool, finished: nat) returns (r: Result<(), Error>)
      requires Valid() && Past(db, k) && ValidTaskId(k.task) && k.worker != "" && k.created != 0 && k.started != 0 && finished != 0
      modifies this`db, this`fs, this`story, this`script, this`cleaned
      ensures Settling(Completion(k, OutcomeOf(code, cancelled, finished)),
                if |cleaned| > |old(cleaned)| then Some(cleaned[|old(cleaned)|]) else None, old(Ours()))
      ensures Valid() && Onward(old(db), db, k) && Keeps(old(db), db)
      ensures |old(cleaned)| <= |cleaned| <= |old(cleaned)| + 1 && cleaned[..|old(cleaned)|] == old(cleaned)
      ensures |cleaned| > |old(cleaned)| ==> cleaned[|old(cleaned)|].claim == k && Guarded(db, fs, cleaned[|old(cleaned)|])
      ensures r.Ok? ==> Settled(db, k) && |cleaned| == |old(cleaned)| + 1 && |Ours().sent| > |old(Ours()).sent|
      ensures Alone(old(script)) ==> Alone(script)
      ensures Alone(old(script)) && r.Ok? ==>
        && db == DbDo(old(db), Complete(Chosen(old(fs), Completion(k, OutcomeOf(code, cancelled, finished)))))
        && fs.dir == old(fs.dir) - {k}
      ensures Reliable(old(script)) ==> Reliable(script) && r.Ok?
    {
      var completion := Completion(k, OutcomeOf(code, cancelled, finished));
      var saved := SaveAndClean(completion);
      if saved.Err? { return Err(saved.error); }
      r := CommitRecord(saved.value);
    }

    /** The first half of finishTask: journal, and only then clean up. */
    method SaveAndClean(c: Completion) returns (r: Result<Completion, Error>)
      requires Valid() && Past(db, c.claim)
      modifies this`db, this`fs, this`story, this`script, this`cleaned
      ensures Wrote(c, old(Ours())) && Keeps(old(db), db)
      ensures Valid() && Onward(old(db), db, c.claim)
      ensures r.Err? ==> cleaned == old(cleaned)
      ensures r.Ok? ==> cleaned == old(cleaned) + [r.value]
      ensures r.Ok? ==> r.value.claim == c.claim && Validate(r.value) && Guarded(db, fs, r.value) && Seen(r.value)
      ensures Alone(old(script)) ==> Alone(script) && db == old(db)
      ensures Alone(old(script)) && r.Ok? ==> r.value == Chosen(old(fs), c) && KeptBeside(old(fs), fs, c.claim)
      ensures Reliable(old(script)) ==> Reliable(script) && (r.Ok? <==> Validate(c))
    {
      r := Save(c);
      if r.Ok? { cleaned := cleaned + [r.value]; }
    }

    /** CancelRequested: None is an error. */
    method ReadRequest(k: Claim) returns (requested: Option<bool>, retry: bool)
      requires Valid()
      modifies this`db, this`fs, this`story, this`script
      ensures Reading(requested, db, fs, script) == OneReading(old(db), old(fs), old(script), k.task)
      ensures retry <==> !ReplyOf(old(script)).FailsForGood?
      ensures Ours() == old(Ours()) && Keeps(old(db), db)
      ensures Valid() && Onward(old(db), db, k)
      ensures if old(script) == [] then requested.Some? && script == [] else |script| < |old(script)|
    {
      var reply := Enter(None, Completion(k, SOME_OUTCOME));
      retry := !reply.FailsForGood?;
      requested := if reply.Works? then Some(CancelRequested(db, k.task)) else None;
    }

    /** The read before the payload starts, tried again after transient errors. */
    method RequestedBefore(k: Claim) returns (requested: Option<bool>)
      requires Valid()
      modifies this`db, this`fs, this`story, this`script
      ensures Reading(requested, db, fs, script) == FirstReading(old(db), old(fs), old(script), k.task)
      ensures Ours() == old(Ours()) && Keeps(old(db), db)
      ensures Valid() && Onward(old(db), db, k)
    {
      while true
        invariant Valid() && Onward(old(db), db, k) && Keeps(old(db), db) && Ours() == old(Ours())
        invariant FirstReading(db, fs, script, k.task) == FirstReading(old(db), old(fs), old(script), k.task)
        decreases |script|
      {
        var retry;
        requested, retry := ReadRequest(k);
        if requested.Some? || !retry { return; }
      }
      return None;
    }

    /** The select loop while the payload runs: whether it ends as cancelled. */
    method Watch(k: Claim, waits: seq<Wait>) returns (cancelled: bool)
      requires Valid()
      modifies this`db, this`fs, this`story, this`script
      ensures cancelled == Stops(old(db), old(fs), old(script), waits, k.task)
      ensures Ours() == old(Ours()) && Keeps(old(db), db)
      ensures Valid() && Onward(old(db), db, k)
      ensures Alone(old(script)) ==> Alone(script) && db == old(db) && fs == old(fs)
      ensures Reliable(old(script)) ==> Reliable(script)
    {
      for i := 0 to |waits|
        invariant Valid() && Onward(old(db), db, k) && Keeps(old(db), db) && Ours() == old(Ours())
        invariant Alone(old(script)) ==> Alone(script) && db == old(db) && fs == old(fs)
        invariant Reliable(old(script)) ==> Reliable(script)
        invariant Stops(db, fs, script, waits[i..], k.task) == Stops(old(db), old(fs), old(script), waits, k.task)
      {
        assert waits[i..][1..] == waits[i + 1..];
        match waits[i] {
          case PayloadEnds => return false;
          case EventsClosed => return false;
          case ShuttingDown => return false;
          case Notified(cancel) => if cancel { return true; }
          case PollTick =>
            var requested, _ := ReadRequest(k);
            if requested == Some(true) { return true; }
        }
      }
      return false;
    }

    /** The run of this claim's task started its payload: the read before it was answered and saw no request. */
    static predicate Starts(job: Job, db: Db, fs: Fs, script: seq<Call>, task: string) {
      job.subscribed && FirstReading(db, fs, script, task).answer == Some(false)
    }

    /** processTask up to its end: subscribe, read the durable request, run the payload and watch it. */
    method Supervise(k: Claim, job: Job) returns (code: int, cancelled: bool, started: bool)
      requires Valid()
      modifies this`db, this`fs, this`story, this`script
      ensures OutcomeOf(code, cancelled, job.finished) == Built(job, old(db), old(fs), old(script), k.task)
      ensures started <==> Starts(job, old(db), old(fs), old(script), k.task)
      ensures Valid() && Onward(old(db), db, k) && Ours() == old(Ours()) && Keeps(old(db), db)
      ensures started && Called(old(db), k) ==> Gone(db, k)
      ensures Alone(old(script)) ==> Alone(script) && db == old(db) && fs == old(fs)
      ensures Reliable(old(script)) ==> Reliable(script)
    {
      FirstReadingIsTrue(db, fs, script, k.task);
      if !job.subscribed { return -1, false, false; }
      var requested := RequestedBefore(k);
      if requested.None? { return -1, false, false; }
      if requested.value { return -1, true, false; }
      cancelled := Watch(k, job.waits);
      return job.code, cancelled, true;
    }

    /**
      processTask: the payload starts exactly after a read that found no request, so never when a
      request was on the row before the call, unless the row was deleted meanwhile.  What is journaled
      is what was built, whatever others do; with no one else acting it is also what is stored, and so
      cancelled with -1 exactly when a request or a cancel event ended the run, never for a shutdown
      alone.
    */
    method ProcessTask(k: Claim, job: Job) returns (r: Result<(), Error>, started: bool)
      requires Valid() && Open(db, k) && Past(db, k) && k.worker != "" && job.finished != 0
      modifies this`db, this`fs, this`story, this`script, this`cleaned
      ensures Valid() && (r.Ok? ==> Settled(db, k) && Past(db, k)) && Keeps(old(db), db)
      ensures started <==> Starts(job, old(db), old(fs), old(script), k.task)
      ensures started && CancelRequested(old(db), k.task) ==> Gone(db, k)
      ensures Settling(Completion(k, Built(job, old(db), old(fs), old(script), k.task)),
                if |cleaned| > |old(cleaned)| then Some(cleaned[|old(cleaned)|]) else None, old(Ours()))
      ensures Alone(old(script)) ==> Alone(script)
      ensures Alone(old(script)) && r.Ok? ==>
        && db == DbDo(old(db), Complete(Chosen(old(fs), Completion(k, Built(job, old(db), old(fs), old(script), k.task)))))
        && fs.dir == old(fs.dir) - {k}
      ensures Alone(old(script)) && r.Ok? && k !in old(fs.dir) ==>
        var cancelled := if started then EventCancels(job.waits)
                         else job.subscribed && Answered(old(script)) && CancelRequested(old(db), k.task);
        Stored(db, k, OutcomeOf(if started then job.code else -1, cancelled, job.finished))
      ensures Reliable(old(script)) ==> Reliable(script) && r.Ok?
      ensures Smooth(old(script)) ==> (started <==> job.subscribed && !CancelRequested(old(db), k.task))
    {
      assert ValidTaskId(k.task) && RowInv(db.rows[k.task], db.clock);
      FirstReadingIsTrue(db, fs, script, k.task);
      if Alone(script) { BuiltAlone(job, db, fs, script, k.task); }
      var code, cancelled;
      code, cancelled, started := Supervise(k, job);
      r := FinishTask(k, code, cancelled, job.finished);
    }

    /** pending: the names of all records. */
    method ListNames() returns (names: Option<seq<Claim>>)
      requires Valid()
      modifies this`db, this`fs, this`story, this`script
      ensures Ours() == old(Ours())
      ensures Valid() && Progress(old(db), old(fs), db, fs)
      ensures names.Some? ==> forall k :: k in fs.dir <==> k in names.value
      ensures names.Some? ==> Left(db, fs, old(fs.dir.Keys), names.value)
      ensures names.Some? <==> AllWork(old(script), 2)
      ensures Alone(old(script)) ==> Alone(script) && db == old(db) && fs == old(fs)
      ensures Reliable(old(script)) ==> Reliable(script) && names.Some?
    {
      TwoCalls(script);
      var init := Enter(None, Completion(Claim("", "", 0, 0), SOME_OUTCOME));
      if !init.Works? { return None; }
      var list := Enter(None, Completion(Claim("", "", 0, 0), SOME_OUTCOME));
      if !list.Works? { return None; }
      var left, found: seq<Claim> := fs.dir.Keys, [];
      while left != {}
        invariant left <= fs.dir.Keys
        invariant forall k :: k in fs.dir <==> k in left || k in found
        decreases |left|
      {
        var k :| k in left;
        left, found := left - {k}, found + [k];
      }
      return Some(found);
    }

    /** Recovery links nothing and claims nothing; it only sends records that the journal held. */
    ghost predicate Replays(before: Deeds)
      reads this`story
    {
      && Ours() == before.(sent := Ours().sent)
      && |before.sent| <= |Ours().sent| && Ours().sent[..|before.sent|] == before.sent
    }

    /** One turn of recoverCompletions: replay the record, then acknowledge it. */
    method RecoverRecord(k: Claim) returns (r: Result<(), Error>)
      requires Valid()
      modifies this`db, this`fs, this`story, this`script
      ensures Replays(old(Ours())) && forall i :: |old(Ours()).sent| <= i < |Ours().sent| ==> Ours().sent[i].claim == k
      ensures Valid() && Progress(old(db), old(fs), db, fs)
      ensures r.Ok? && Covered(old(db), old(fs), k) ==> Settled(db, k)
      ensures Alone(old(script)) ==> Alone(script) && fs.files == old(fs.files)
      ensures Alone(old(script)) && r.Ok? ==> match RecordAt(old(fs), k)
        case None => db == old(db) && fs == old(fs)
        case Some(c) => db == DbDo(old(db), Complete(c)) && fs.dir == old(fs.dir) - {k}
      ensures Reliable(old(script)) ==> Reliable(script) && r.Ok?
    {
      if k in fs.dir { assert Sound(fs, fs.dir, k); }
      var record := Read(k, None);
      if record.None? { return Err(Io); }
      if record.value.None? { return Ok(()); }
      r := CommitRecord(record.value.value);
    }

    /**
      recoverCompletions: every claim with a record at the beginning is settled at the end, whoever
      else is at work.  A worker alone in its workdir leaves no record behind, and what each record
      held is stored for its claim, if that was still open.
    */
    method Recover() returns (r: Result<(), Error>)
      requires Valid()
      modifies this`db, this`fs, this`story, this`script
      ensures Replays(old(Ours())) && Keeps(old(db), db)
      ensures Valid()
      ensures r.Ok? ==> forall k :: k in old(fs.dir) ==> Over(db, k)
      ensures Alone(old(script)) ==> Alone(script) && (r.Ok? ==> fs.dir.Keys == {} && Replayed(old(db), old(fs), db, fs))
      ensures Reliable(old(script)) ==> Reliable(script) && r.Ok?
    {
      ghost var found := fs.dir.Keys;
      ghost var db0, fs0, alone := db, fs, Alone(script);
      var names := ListNames();
      if names.None? { return Err(Io); }
      assert names.value[0..] == names.value;
      var i := 0;
      while i < |names.value|
        invariant i <= |names.value| && Valid() && Replays(old(Ours())) && Left(db, fs, found, names.value[i..]) && Keeps(db0, db)
        invariant alone ==> Alone(script) && Replayed(db0, fs0, db, fs) && forall k :: k in fs.dir ==> k in names.value[i..]
        invariant Reliable(old(script)) ==> Reliable(script)
      {
        assert names.value[i..] == [names.value[i]] + names.value[i + 1..];
        r := RecoverNext(names.value[i], names.value[i + 1..], found, db0, fs0, alone);
        if r.Err? { return; }
        i := i + 1;
      }
      return Ok(());
    }

    /** Of the claims found, those not settled yet still have their records, and are among these names. */
    static ghost predicate Left(db: Db, fs: Fs, found: set<Claim>, names: seq<Claim>) {
      forall k :: k in found ==> Covered(db, fs, k) && (Over(db, k) || k in names)
    }

    method RecoverNext(k: Claim, rest: seq<Claim>, ghost found: set<Claim>, ghost db0: Db, ghost fs0: Fs, ghost alone: bool)
      returns (r: Result<(), Error>)
      requires Valid() && Left(db, fs, found, [k] + rest)
      requires alone ==> Alone(script) && World(db0, fs0) && Replayed(db0, fs0, db, fs)
      modifies this`db, this`fs, this`story, this`script
      ensures Replays(old(Ours())) && Keeps(old(db), db)
      ensures Valid() && (r.Ok? ==> Left(db, fs, found, rest))
      ensures alone ==> Alone(script)
      ensures alone && r.Ok? ==> Replayed(db0, fs0, db, fs) && fs.dir.Keys == old(fs.dir.Keys) - {k}
      ensures Reliable(old(script)) ==> Reliable(script) && r.Ok?
    {
      if alone { ReplayGoesOn(db0, fs0, db, fs, k); }
      r := RecoverRecord(k);
    }

    /** Replaying one more record keeps what the others held, and what was stored for them. */
    static lemma ReplayGoesOn(db0: Db, fs0: Fs, db: Db, fs: Fs, k: Claim)
      requires Replayed(db0, fs0, db, fs) && World(db, fs) && World(db0, fs0)
      ensures match RecordAt(fs, k)
        case None => k !in fs.dir
        case Some(c) =>
          forall fs': Fs :: fs'.files == fs.files && fs'.dir == fs.dir - {k} ==> Replayed(db0, fs0, DbDo(db, Complete(c)), fs')
    {
      if k in fs.dir {
        assert Sound(fs, fs.dir, k);
        var c := RecordAt(fs, k).value;
        forall fs': Fs | fs'.files == fs.files && fs'.dir == fs.dir - {k} ensures Replayed(db0, fs0, DbDo(db, Complete(c)), fs') {
          forall j ensures ReplayedAt(db0, fs0, DbDo(db, Complete(c)), fs', j) {
            assert ReplayedAt(db0, fs0, db, fs, j);
            ReplayOfOne(db0, fs0, db, fs, fs', c, j);
          }
        }
      }
    }

    static lemma ReplayOfOne(db0: Db, fs0: Fs, db: Db, fs: Fs, fs': Fs, c: Completion, j: Claim)
      requires ReplayedAt(db0, fs0, db, fs, j) && RecordAt(fs, c.claim) == Some(c) && c.claim in fs.dir && Validate(c)
      requires RecordAt(fs0, c.claim).Some? && fs'.files == fs.files && fs'.dir == fs.dir - {c.claim}
      requires j in fs.dir ==> RecordAt(fs, j).Some?
      ensures ReplayedAt(db0, fs0, DbDo(db, Complete(c)), fs', j)
    {
    }

    /** claim_task.sql: whichever pending row is picked becomes ours. */
    method IssueClaim(name: string, pick: Db -> Option<string>, ghost answered: bool) returns (claim: Option<Claim>)
      requires Valid() && name != ""
      modifies this`db, this`fs, this`story
      ensures Valid() && Keeps(old(db), db)
      ensures claim.Some? ==> Issued(db, name, claim.value)
      ensures claim == Picked(old(db), name, pick) && db == AfterPick(old(db), name, pick) && fs == old(fs)
      ensures Claimed(old(Ours()), Ours(), if answered then Ok(claim) else Ok(None))
      ensures answered ==> IssuedOne(old(Ours()), Ours(), claim, old(fs.dir.Keys))
      ensures old(fs.dir.Keys) == {} && old(ClaimsOverEmpty()) ==> ClaimsOverEmpty()
    {
      var id := pick(db);
      NothingClaimed(Ours());
      if id.None? || id.value !in db.rows || !db.rows[id.value].status.Pending? { return None; }
      var k := GrantedClaim(db, id.value, name);
      OneClaimed(Ours(), fs.dir.Keys, k, answered);
      TakeRow(id.value, name, k, answered);
      return Some(k);
    }

    /** The row of the claim becomes ours. */
    method TakeRow(id: string, name: string, k: Claim, ghost answered: bool)
      requires Valid() && name != "" && id in db.rows && db.rows[id].status.Pending? && k == GrantedClaim(db, id, name)
      modifies this`db, this`fs, this`story
      ensures Valid() && Keeps(old(db), db) && Issued(db, name, k)
      ensures db == DbDo(old(db), Grant(id, name)) && fs == old(fs)
      ensures Ours() == old(Ours()).(claims := old(Ours()).claims + [Issue(old(fs.dir.Keys), k, answered)])
    {
      Do(Other(Grant(id, name), Quiet), Completion(k, SOME_OUTCOME), answered);
    }

    static lemma OneClaimed(before: Deeds, names: set<Claim>, k: Claim, answered: bool)
      ensures
        var after := before.(claims := before.claims + [Issue(names, k, answered)]);
        && Claimed(before, after, if answered then Ok(Some(k)) else Ok(None))
        && (answered ==> IssuedOne(before, after, Some(k), names))
        && (names == {} && (forall i :: 0 <= i < |before.claims| ==> before.claims[i].names == {}) ==>
             forall i :: 0 <= i < |after.claims| ==> after.claims[i].names == {})
    {
    }

    /** claimTask: the same statement again after a failure or a lost reply, which may leave another row running. */
    method ClaimTask(name: string, pick: Db -> Option<string>) returns (r: Result<Option<Claim>, Error>)
      requires Valid() && name != ""
      modifies this`db, this`fs, this`story, this`script
      ensures Claiming(r, db, fs, script) == ClaimLoop(old(db), old(fs), old(script), name, pick)
      ensures Claimed(old(Ours()), Ours(), r)
      ensures Reliable(old(script)) ==> Reliable(script) && r.Ok?
      ensures Smooth(old(script)) ==> IssuedOne(old(Ours()), Ours(), Picked(old(db), name, pick), old(fs.dir.Keys))
      ensures Valid() && Keeps(old(db), db)
      ensures r.Ok? && r.value.Some? ==> Issued(db, name, r.value.value)
      ensures Alone(old(script)) ==> Alone(script) && fs == old(fs)
      ensures Alone(old(script)) && old(fs.dir.Keys) == {} && old(ClaimsOverEmpty()) ==> ClaimsOverEmpty()
    {
      while true
        invariant Valid() && Keeps(old(db), db)
        invariant ClaimLoop(db, fs, script, name, pick) == ClaimLoop(old(db), old(fs), old(script), name, pick)
        invariant Claimed(old(Ours()), Ours(), Ok(None))
        invariant Smooth(old(script)) ==> script == old(script) && db == old(db) && fs == old(fs) && Ours() == old(Ours())
        invariant Alone(old(script)) ==> Alone(script) && fs == old(fs)
        invariant Alone(old(script)) && old(fs.dir.Keys) == {} && old(ClaimsOverEmpty()) ==> ClaimsOverEmpty()
        decreases |script|
      {
        var again;
        ghost var before := Ours();
        r, again := ClaimOnce(name, pick);
        ClaimedAgain(old(Ours()), before, Ours(), if r.Ok? then r else Ok(None));
        if !again { return; }
      }
      return Err(Database);
    }

    /** We issued claims and did nothing else outside: the last was answered if one was returned, and no other. */
    static ghost predicate Claimed(before: Deeds, after: Deeds, r: Result<Option<Claim>, Error>) {
      && after == before.(claims := after.claims)
      && |before.claims| <= |after.claims| && after.claims[..|before.claims|] == before.claims
      && if r.Ok? && r.value.Some?
         then Unanswered(after.claims, |before.claims|, |after.claims| - 1) && LastIs(after.claims, |before.claims|, r.value.value)
         else Unanswered(after.claims, |before.claims|, |after.claims|)
    }

    static ghost predicate Unanswered(claims: seq<Issue>, from: nat, upTo: int) {
      forall i :: from <= i < upTo && i < |claims| ==> !claims[i].answered
    }

    static ghost predicate LastIs(claims: seq<Issue>, from: nat, k: Claim) {
      from < |claims| && claims[|claims| - 1].claim == k && claims[|claims| - 1].answered
    }

    static lemma NothingClaimed(d: Deeds)
      ensures Claimed(d, d, Ok(None))
    {
    }

    static lemma ClaimedAgain(before: Deeds, middle: Deeds, after: Deeds, r: Result<Option<Claim>, Error>)
      ensures Claimed(before, middle, Ok(None)) && Claimed(middle, after, r) ==> Claimed(before, after, r)
    {
    }

    static ghost predicate IssuedOne(before: Deeds, after: Deeds, claim: Option<Claim>, names: set<Claim>) {
      match claim
      case None => after == before
      case Some(k) => after == before.(claims := before.claims + [Issue(names, k, true)])
    }

    method EnterToClaim() returns (reply: Reply)
      requires Valid()
      modifies this`db, this`fs, this`story, this`script
      ensures Valid() && Ours() == old(Ours()) && Keeps(old(db), db)
      ensures (db, fs) == Met(old(db), old(fs), old(script), None)
      ensures reply == ReplyOf(old(script)) && script == Rest(old(script))
      ensures Alone(old(script)) ==> Alone(script) && fs == old(fs)
      ensures if old(script) == [] then reply == Works && script == [] else |script| < |old(script)|
    {
      reply := Enter(None, Completion(Claim("", "", 0, 0), SOME_OUTCOME));
    }

    /** The statement once; it may be applied although no reply arrives. */
    method ClaimOnce(name: string, pick: Db -> Option<string>) returns (r: Result<Option<Claim>, Error>, again: bool)
      requires Valid() && name != ""
      modifies this`db, this`fs, this`story, this`script
      ensures Valid() && Keeps(old(db), db) && (again ==> |script| < |old(script)|)
      ensures Claiming(r, db, fs, script) == OneClaim(old(db), old(fs), old(script), name, pick)
      ensures again <==> r.Err? && !ReplyOf(old(script)).FailsForGood?
      ensures Claimed(old(Ours()), Ours(), if r.Ok? then r else Ok(None))
      ensures Reliable(old(script)) ==> Reliable(script) && r.Ok?
      ensures Smooth(old(script)) ==> IssuedOne(old(Ours()), Ours(), Picked(old(db), name, pick), old(fs.dir.Keys))
      ensures r.Ok? && r.value.Some? ==> Issued(db, name, r.value.value)
      ensures Alone(old(script)) ==> Alone(script) && fs == old(fs)
      ensures Alone(old(script)) && old(fs.dir.Keys) == {} && old(ClaimsOverEmpty()) ==> ClaimsOverEmpty()
    {
      NothingClaimed(Ours());
      var reply := EnterToClaim();
      if reply.FailsForGood? || reply.Fails? { return Err(Database), reply.Fails?; }
      var claim := IssueClaim(name, pick, reply.Works?);
      return if reply.Works? then Ok(claim) else Err(Database), !reply.Works?;
    }

    /** The row of the claim is running for this worker. */
    static predicate Issued(db: Db, name: string, k: Claim) {
      Matches(db, k) && db.rows[k.task].status.Running? && k.worker == name && Past(db, k)
    }

    /** Every claim of ours whose reply arrived is settled. */
    ghost predicate AnsweredAreOver(from: nat)
      reads this`story, this`db
    {
      forall i :: from <= i < |Ours().claims| && Ours().claims[i].answered ==> Over(db, Ours().claims[i].claim)
    }

    /**
      Run: recovery first, then claims, each finished before the next.  A worker alone in its
      workdir never issues a claim while the journal holds a record.  When Run ends well, every claim
      whose reply arrived is settled.  When every call works and nobody else acts, it has taken the
      oldest tasks that match, as many as it had turns for, and stored what became of each; or none
      is left that matches.
    */
    method Run(name: string, pick: Db -> Option<string>, jobs: seq<Job>, ghost filter: map<string, string>) returns (r: Result<(), Error>)
      requires Valid() && name != "" && Ours().claims == []
      requires forall i :: 0 <= i < |jobs| ==> jobs[i].finished != 0
      modifies this
      ensures Valid() && (Alone(old(script)) ==> ClaimsOverEmpty())
      ensures r.Ok? ==> AnsweredAreOver(0)
      ensures Alone(old(script)) && r.Ok? ==>
        forall k :: k in old(fs.dir) && Open(old(db), k) ==> RecordAt(old(fs), k).Some? && Stored(db, k, RecordAt(old(fs), k).value.outcome)
      ensures Reliable(old(script)) ==> Reliable(script) && r.Ok?
      ensures Smooth(old(script)) && Picks(pick, filter) ==> Worked(db, Ours().claims, jobs, |jobs|, filter)
    {
      ghost var db0, fs0, alone := db, fs, Alone(script);
      var recovered := Recover();
      if recovered.Err? { return recovered; }
      if alone { RecoveredAreStored(db0, fs0, db, fs); }
      for i := 0 to |jobs|
        invariant Valid() && AnsweredAreOver(0)
        invariant Alone(old(script)) ==> Alone(script) && fs.dir.Keys == {} && ClaimsOverEmpty() && RecordsStored(db0, fs0, db)
        invariant Reliable(old(script)) ==> Reliable(script)
        invariant Smooth(old(script)) && Picks(pick, filter) ==> Worked(db, Ours().claims, jobs, i, filter)
      {
        ghost var before, journal, calls, claims := db, fs, script, Ours().claims;
        r := NextTask(name, pick, jobs[i]);
        if r.Err? { return; }
        AllAreOver(claims, Ours().claims, before, db);
        if Alone(calls) && journal.dir.Keys == {} { AnotherTask(db0, fs0, before, journal, calls, name, pick, jobs[i]); }
        if Smooth(calls) && journal.dir.Keys == {} && Picks(pick, filter) && Worked(before, claims, jobs, i, filter) {
          WorkedOnce(before, journal, calls, name, pick, filter, claims, jobs, i);
        }
      }
      return Ok(());
    }

    /** A turn of a worker alone keeps what recovery stored. */
    static lemma AnotherTask(db0: Db, fs0: Fs, db: Db, fs: Fs, script: seq<Call>, name: string, pick: Db -> Option<string>, job: Job)
      requires World(db0, fs0) && Alone(script)
      ensures RecordsStored(db0, fs0, db) ==> RecordsStored(db0, fs0, AfterTask(ClaimLoop(db, fs, script, name, pick), job))
    {
      var db' := AfterTask(ClaimLoop(db, fs, script, name, pick), job);
      ClaimsFreeze(db, fs, script, name, pick);
      if RecordsStored(db0, fs0, db) {
        forall k | k in fs0.dir && Open(db0, k) ensures RecordAt(fs0, k).Some? && Stored(db', k, RecordAt(fs0, k).value.outcome) {
          assert Sound(fs0, fs0.dir, k);
        }
      }
    }

    /** What the journal held for open claims at the beginning is stored. */
    static ghost predicate RecordsStored(db0: Db, fs0: Fs, db: Db) {
      forall k :: k in fs0.dir && Open(db0, k) ==> RecordAt(fs0, k).Some? && Stored(db, k, RecordAt(fs0, k).value.outcome)
    }

    static lemma RecoveredAreStored(db0: Db, fs0: Fs, db: Db, fs: Fs)
      requires World(db0, fs0) && Replayed(db0, fs0, db, fs) && fs.dir.Keys == {}
      ensures RecordsStored(db0, fs0, db)
    {
      forall k | k in fs0.dir && Open(db0, k) ensures RecordAt(fs0, k).Some? && Stored(db, k, RecordAt(fs0, k).value.outcome) {
        assert Sound(fs0, fs0.dir, k) && ReplayedAt(db0, fs0, db, fs, k);
      }
    }

    /** The claims before are as they were, and every new one whose reply arrived is settled. */
    static ghost predicate NewAreOver(before: seq<Issue>, after: seq<Issue>, db: Db) {
      && |before| <= |after| && after[..|before|] == before
      && forall i :: |before| <= i < |after| && after[i].answered ==> Over(db, after[i].claim)
    }

    static lemma ClaimedAreOver(before: Deeds, after: Deeds, r: Result<Option<Claim>, Error>, db: Db)
      requires Claimed(before, after, r) && (r.Ok? && r.value.Some? ==> Over(db, r.value.value))
      ensures NewAreOver(before.claims, after.claims, db)
    {
    }

    static lemma AllAreOver(before: seq<Issue>, after: seq<Issue>, db: Db, db': Db)
      requires NewAreOver(before, after, db') && Keeps(db, db')
      requires forall i :: 0 <= i < |before| && before[i].answered ==> Over(db, before[i].claim)
      ensures forall i :: 0 <= i < |after| && after[i].answered ==> Over(db', after[i].claim)
    {
      forall i | 0 <= i < |after| && after[i].answered ensures Over(db', after[i].claim) {
        if i < |before| { assert after[..|before|][i] == before[i]; }
      }
    }

    /** One turn of the loop of Run: the claim, and if one is returned its task, to the end. */
    method NextTask(name: string, pick: Db -> Option<string>, job: Job) returns (r: Result<(), Error>)
      requires Valid() && name != "" && job.finished != 0
      modifies this
      ensures Valid() && Keeps(old(db), db)
      ensures r.Ok? ==> NewAreOver(old(Ours()).claims, Ours().claims, db)
      ensures ClaimLoop(old(db), old(fs), old(script), name, pick).r.Err? ==> r.Err?
      ensures Alone(old(script)) && old(fs.dir.Keys) == {} && old(ClaimsOverEmpty()) ==> Alone(script) && ClaimsOverEmpty()
      ensures Alone(old(script)) && old(fs.dir.Keys) == {} && r.Ok? ==>
        fs.dir.Keys == {} && db == AfterTask(ClaimLoop(old(db), old(fs), old(script), name, pick), job)
      ensures Reliable(old(script)) ==> Reliable(script) && r.Ok?
      ensures Smooth(old(script)) ==> match Picked(old(db), name, pick)
        case Some(k) => Ours().claims == old(Ours()).claims + [Issue(old(fs.dir.Keys), k, true)]
        case None => Ours().claims == old(Ours()).claims
    {
      var claim := ClaimTask(name, pick);
      if claim.Err? { return Err(claim.error); }
      ghost var issued := Ours();
      if claim.value.None? {
        ClaimedAreOver(old(Ours()), issued, claim, db);
        return Ok(());
      }
      var started;
      r, started := ProcessTask(claim.value.value, job);
      if r.Ok? { ClaimedAreOver(old(Ours()), issued, claim, db); }
    }
  }

  lemma {:induction false} SmallerSet(a: set<nat>, b: set<nat>)
    requires a < b
    ensures |a| < |b|
    decreases b
  {
    var x :| x in b && x !in a;
    if a == b - {x} {
    } else {
      assert a < b - {x};
      SmallerSet(a, b - {x});
    }
  }
}

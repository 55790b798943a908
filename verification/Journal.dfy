/**
  The completion journal on a file system with two layers.

  `dir` is the directory every process sees, `disk` is what a power loss leaves of it.  A file's
  bytes survive a power loss only once they were synced; otherwise the file comes back with
  arbitrary content (None stands for anything that does not decode).  Record names are the
  claim itself: completionName is taken to be injective.
*/
module Journal {
  import opened Wrappers
  import opened Tasks

  datatype File = File(content: Option<Completion>, synced: bool)

  datatype Fs = Fs(files: map<nat, File>, dir: map<Claim, nat>, disk: map<Claim, nat>)

  datatype FsOp =
    | Quiet
    | CreateTemp(ino: nat)
    | Encode(ino: nat, completion: Completion)
    | SyncFile(ino: nat)
    | Link(name: Claim, ino: nat)
    | Remove(name: Claim)
    | SyncDirectory
    | Writeback(name: Claim)
    | PowerLoss(garbage: map<nat, Option<Completion>>)

  /** After a power loss an unsynced file holds whatever reached the disk. */
  function Torn(files: map<nat, File>, garbage: map<nat, Option<Completion>>): map<nat, File> {
    map i | i in files ::
      if files[i].synced then files[i]
      else File(if i in garbage then garbage[i] else None, false)
  }

  function FsDo(fs: Fs, op: FsOp): Fs {
    match op
    case Quiet => fs
    case CreateTemp(i) => fs.(files := fs.files[i := File(None, false)])
    case Encode(i, c) => fs.(files := fs.files[i := File(Some(c), false)])
    case SyncFile(i) => if i in fs.files then fs.(files := fs.files[i := fs.files[i].(synced := true)]) else fs
    case Link(k, i) => if k in fs.dir then fs else fs.(dir := fs.dir[k := i])
    case Remove(k) => fs.(dir := fs.dir - {k})
    case SyncDirectory => fs.(disk := fs.dir)
    case Writeback(k) => fs.(disk := if k in fs.dir then fs.disk[k := fs.dir[k]] else fs.disk - {k})
    case PowerLoss(garbage) => Fs(Torn(fs.files, garbage), fs.disk, fs.disk)
  }

  /**
    Each step changes the one file or the one name it is for.  A name that is taken is never replaced,
    and only a power loss takes names away that no one removed.
  */
  lemma JournalStepsAreExact(fs: Fs, op: FsOp, i: nat, k: Claim)
    requires !op.PowerLoss?
    ensures
      var fs' := FsDo(fs, op);
      && (i in fs'.files <==> i in fs.files || ((op.CreateTemp? || op.Encode?) && op.ino == i))
      && (i in fs'.files ==>
           fs'.files[i] == if op == CreateTemp(i) then File(None, false)
                           else if op.Encode? && op.ino == i then File(Some(op.completion), false)
                           else if op == SyncFile(i) then File(fs.files[i].content, true)
                           else fs.files[i])
      && (k in fs'.dir <==> (k in fs.dir && op != Remove(k)) || (op.Link? && op.name == k))
      && (k in fs'.dir ==> fs'.dir[k] == if k in fs.dir then fs.dir[k] else op.ino)
  {
  }

  /** What a power loss after a step leaves of a name: what it led to at the last sync or writeback of it. */
  lemma PowerLossLeavesTheSynced(fs: Fs, op: FsOp, garbage: map<nat, Option<Completion>>, k: Claim)
    ensures
      var after := FsDo(FsDo(fs, op), PowerLoss(garbage));
      var now := if op == SyncDirectory || op == Writeback(k) then fs.dir else fs.disk;
      && after.dir == after.disk && (k in after.dir <==> k in now) && (k in now ==> after.dir[k] == now[k])
  {
  }

  /** A power loss may leave anything in a file that was not synced, and touches no synced one. */
  lemma PowerLossMayTearAnything(fs: Fs, i: nat, x: Option<Completion>, j: nat)
    requires i in fs.files && !fs.files[i].synced && j in fs.files
    ensures
      var after := FsDo(fs, PowerLoss(map[i := x]));
      after.files.Keys == fs.files.Keys && after.files[i] == File(x, false) && (fs.files[j].synced ==> after.files[j] == fs.files[j])
  {
  }

  /** The record a name leads to: complete, valid, synced and of that very claim. */
  predicate Sound(fs: Fs, entries: map<Claim, nat>, k: Claim) {
    && k in entries && entries[k] in fs.files
    && fs.files[entries[k]].synced
    && fs.files[entries[k]].content.Some?
    && fs.files[entries[k]].content.value.claim == k
    && Validate(fs.files[entries[k]].content.value)
  }

  /** Every visible or durable name is a sound record. */
  ghost predicate FsInv(fs: Fs) {
    && (forall k :: k in fs.dir ==> Sound(fs, fs.dir, k))
    && (forall k :: k in fs.disk ==> Sound(fs, fs.disk, k))
  }

  /** What `read` returns for a visible name. */
  function ReadRecord(fs: Fs, k: Claim): Completion
    requires Sound(fs, fs.dir, k)
  {
    fs.files[fs.dir[k]].content.value
  }

  predicate Holds(fs: Fs, entries: map<Claim, nat>, c: Completion) {
    && c.claim in entries && entries[c.claim] in fs.files
    && fs.files[entries[c.claim]].synced
    && fs.files[entries[c.claim]].content == Some(c)
  }

  /** The record is visible now and would still be there after a power loss. */
  predicate Kept(fs: Fs, c: Completion) {
    Holds(fs, fs.dir, c) && Holds(fs, fs.disk, c)
  }

  /** The order of save: bytes only into unsynced files, and only complete synced files are linked. */
  predicate FsOpOk(fs: Fs, op: FsOp) {
    match op
    case CreateTemp(i) => i !in fs.files
    case Encode(i, c) => i in fs.files && !fs.files[i].synced
    case SyncFile(i) => i in fs.files && fs.files[i].content.Some?
    case Link(k, i) =>
      && i in fs.files && fs.files[i].synced && fs.files[i].content.Some?
      && fs.files[i].content.value.claim == k && Validate(fs.files[i].content.value)
    case _ => true
  }

  lemma JournalStepsKeepRecordsSound(fs: Fs, op: FsOp)
    requires FsInv(fs) && FsOpOk(fs, op)
    ensures FsInv(FsDo(fs, op))
  {
    var fs' := FsDo(fs, op);
    forall k | k in fs'.dir ensures Sound(fs', fs'.dir, k) {
      if k in fs.dir { assert Sound(fs, fs.dir, k); }
      if k in fs.disk { assert Sound(fs, fs.disk, k); }
    }
    forall k | k in fs'.disk ensures Sound(fs', fs'.disk, k) {
      if k in fs.dir { assert Sound(fs, fs.dir, k); }
      if k in fs.disk { assert Sound(fs, fs.disk, k); }
    }
  }

  /** Only removing that very name, or replacing the layer, can lose an entry. */
  lemma HeldRecordsStay(fs: Fs, op: FsOp, c: Completion)
    requires FsInv(fs) && FsOpOk(fs, op) && op != Remove(c.claim)
    ensures Holds(fs, fs.dir, c) && !op.PowerLoss? ==> Holds(FsDo(fs, op), FsDo(fs, op).dir, c)
    ensures Kept(fs, c) ==> Kept(FsDo(fs, op), c)
  {
    if Holds(fs, fs.dir, c) { assert Sound(fs, fs.dir, c.claim); }
    if Holds(fs, fs.disk, c) { assert Sound(fs, fs.disk, c.claim); }
  }

  /** A file that no step names keeps its bytes; a power loss spares the synced ones. */
  lemma OtherFilesStay(fs: Fs, op: FsOp, i: nat)
    requires i in fs.files && FsOpOk(fs, op)
    requires op.Encode? || op.SyncFile? ==> op.ino != i
    ensures i in FsDo(fs, op).files
    ensures !op.PowerLoss? || fs.files[i].synced ==> FsDo(fs, op).files[i] == fs.files[i]
  {
  }
}

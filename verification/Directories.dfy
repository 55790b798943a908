/**
  durableDirectory: any number of workers create one path of directories while any of their
  machines may lose power.  `dirs` is what every process sees; `disk` holds the directory
  entries that a power loss leaves.  The root is the empty path and always exists.
*/
module Directories {
  import opened Wrappers

  type Path = seq<string>

  function Parent(p: Path): Path {
    if p == [] then [] else p[..|p| - 1]
  }

  /** One worker inside the recursion for `target`: which prefix it works on, and the next call. */
  datatype Pc =
    | Away
    | Stat(target: Path, k: nat)
    | Mkdir(target: Path, k: nat)
    | SyncParent(target: Path, k: nat)
    | Returned(target: Path)

  datatype State = State(dirs: set<Path>, disk: set<Path>, workers: map<nat, Pc>, returned: set<Path>)

  datatype Action =
    | Call(w: nat, target: Path)
    | Go(w: nat)
    | Fail(w: nat)
    | Flush(p: Path)
    | LosePower

  /** Syncing a directory makes the entries it holds durable. */
  function Synced(s: State, parent: Path): set<Path> {
    s.disk + set p | p in s.dirs && Parent(p) == parent
  }

  /** After a power loss a directory remains exactly if its whole path was durable. */
  predicate Anchored(disk: set<Path>, p: Path) {
    forall i :: 0 <= i <= |p| ==> p[..i] in disk
  }

  predicate Enabled(s: State, a: Action) {
    match a
    case Call(w, _) => w in s.workers && s.workers[w].Away?
    case Go(w) => w in s.workers && !s.workers[w].Away? && !s.workers[w].Returned?
    case Fail(w) => w in s.workers
    case Flush(p) => p in s.dirs
    case LosePower => true
  }

  /** Mkdir works, or says the directory exists, only inside an existing parent. */
  function Made(s: State, p: Path): set<Path> {
    if Parent(p) in s.dirs then s.dirs + {p} else s.dirs
  }

  function Do(s: State, a: Action): State
    requires Enabled(s, a)
  {
    match a
    case Call(w, t) => s.(workers := s.workers[w := Stat(t, |t|)])
    case Fail(w) => s.(workers := s.workers[w := Away])
    case Flush(p) => s.(disk := s.disk + {p})
    case LosePower =>
      var left := set p | p in s.disk && Anchored(s.disk, p);
      State(left, left, map w | w in s.workers :: Away, s.returned)
    case Go(w) =>
      match s.workers[w]
      case Stat(t, k) =>
        if k > |t| then s.(workers := s.workers[w := Away])
        else if t[..k] in s.dirs then s.(workers := s.workers[w := SyncParent(t, k)])
        else if k == 0 then s.(workers := s.workers[w := Away])
        else s.(workers := s.workers[w := Stat(t, k - 1)])
      case Mkdir(t, k) =>
        if k > |t| || Parent(t[..k]) !in s.dirs then s.(workers := s.workers[w := Away])
        else s.(dirs := Made(s, t[..k]), workers := s.workers[w := SyncParent(t, k)])
      case SyncParent(t, k) =>
        if k > |t| then s.(workers := s.workers[w := Away])
        else s.(disk := Synced(s, Parent(t[..k])),
                workers := s.workers[w := if k == |t| then Returned(t) else Mkdir(t, k + 1)],
                returned := if k == |t| then s.returned + {t} else s.returned)
      case _ => s
  }

  /** Directories that others made are durable; nobody is inside the recursion yet. */
  ghost predicate Init(s: State) {
    && [] in s.dirs && s.disk == s.dirs && s.returned == {}
    && (forall p :: p in s.dirs ==> Anchored(s.disk, p))
    && (forall w :: w in s.workers ==> s.workers[w].Away?)
  }

  // ---------------------------------------------------------------- the invariant

  predicate WorkerOk(s: State, pc: Pc) {
    match pc
    case Away => true
    case Stat(t, k) => k <= |t|
    case Mkdir(t, k) => 1 <= k <= |t| && t[..k - 1] in s.dirs && Anchored(s.disk, t[..k - 1])
    case SyncParent(t, k) => k <= |t| && t[..k] in s.dirs
    case Returned(t) => t in s.dirs && Anchored(s.disk, t)
  }

  /** Every existing directory has all its proper ancestors durable. */
  ghost predicate AncestorsDurable(s: State) {
    forall p :: p in s.dirs && p != [] ==> Anchored(s.disk, Parent(p))
  }

  ghost predicate Inv(s: State) {
    && [] in s.dirs && [] in s.disk && s.disk <= s.dirs
    && AncestorsDurable(s)
    && (forall w :: w in s.workers ==> WorkerOk(s, s.workers[w]))
    && (forall p :: p in s.returned ==> p in s.dirs && Anchored(s.disk, p))
  }

  lemma AnchoredExtends(disk: set<Path>, p: Path)
    requires p != [] && Anchored(disk, Parent(p)) && p in disk
    ensures Anchored(disk, p)
  {
    forall i | 0 <= i <= |p| ensures p[..i] in disk {
      if i < |p| { assert p[..i] == Parent(p)[..i]; } else { assert p[..i] == p; }
    }
  }

  lemma AnchoredGrows(disk: set<Path>, disk': set<Path>, p: Path)
    requires disk <= disk' && Anchored(disk, p)
    ensures Anchored(disk', p)
  {
  }

  lemma RootIsAnchored(disk: set<Path>)
    requires [] in disk
    ensures Anchored(disk, [])
  {
    var root: Path := [];
    forall i | 0 <= i <= |root| ensures root[..i] in disk { assert root[..i] == []; }
  }

  lemma SyncedIsAnchored(s: State, p: Path)
    requires Inv(s) && p in s.dirs
    ensures Anchored(Synced(s, Parent(p)), p)
  {
    var disk := Synced(s, Parent(p));
    if p == [] { RootIsAnchored(disk); }
    else {
      AnchoredGrows(s.disk, disk, Parent(p));
      AnchoredExtends(disk, p);
    }
  }

  /** Growing both layers keeps what every worker relies on. */
  lemma GrowthKeepsWorkers(s: State, s': State, pc: Pc)
    requires s.dirs <= s'.dirs && s.disk <= s'.disk && WorkerOk(s, pc)
    ensures WorkerOk(s', pc)
  {
  }

  lemma GrowthKeepsAncestors(s: State, s': State)
    requires s.dirs <= s'.dirs && s.disk <= s'.disk && AncestorsDurable(s)
    requires forall p :: p in s'.dirs && p !in s.dirs ==> Anchored(s.disk, Parent(p))
    ensures AncestorsDurable(s')
  {
  }

  lemma StatIsOk(s: State, w: nat)
    requires Inv(s) && Enabled(s, Go(w)) && s.workers[w].Stat?
    ensures WorkerOk(Do(s, Go(w)), Do(s, Go(w)).workers[w])
  {
  }

  lemma MkdirIsOk(s: State, w: nat)
    requires Inv(s) && Enabled(s, Go(w)) && s.workers[w].Mkdir?
    ensures WorkerOk(Do(s, Go(w)), Do(s, Go(w)).workers[w])
  {
    var t, k := s.workers[w].target, s.workers[w].k;
    assert WorkerOk(s, s.workers[w]);
    assert Parent(t[..k]) == t[..k - 1];
  }

  lemma SyncIsOk(s: State, w: nat)
    requires Inv(s) && Enabled(s, Go(w)) && s.workers[w].SyncParent?
    ensures WorkerOk(Do(s, Go(w)), Do(s, Go(w)).workers[w])
  {
    var t, k := s.workers[w].target, s.workers[w].k;
    assert WorkerOk(s, s.workers[w]);
    SyncedIsAnchored(s, t[..k]);
    assert t[..|t|] == t;
  }

  lemma MoverIsOk(s: State, w: nat)
    requires Inv(s) && Enabled(s, Go(w))
    ensures WorkerOk(Do(s, Go(w)), Do(s, Go(w)).workers[w])
  {
    match s.workers[w]
    case Stat(_, _) => StatIsOk(s, w);
    case Mkdir(_, _) => MkdirIsOk(s, w);
    case SyncParent(_, _) => SyncIsOk(s, w);
  }

  lemma GoKeepsInv(s: State, w: nat)
    requires Inv(s) && Enabled(s, Go(w))
    ensures Inv(Do(s, Go(w)))
  {
    var s' := Do(s, Go(w));
    MoverIsOk(s, w);
    assert WorkerOk(s, s.workers[w]);
    if s.workers[w].Mkdir? {
      var t, k := s.workers[w].target, s.workers[w].k;
      assert Parent(t[..k]) == t[..k - 1];
    }
    GrowthKeepsAncestors(s, s');
    forall v | v in s'.workers ensures WorkerOk(s', s'.workers[v]) {
      if v != w { GrowthKeepsWorkers(s, s', s.workers[v]); }
    }
    forall p | p in s'.returned ensures p in s'.dirs && Anchored(s'.disk, p) {
      if p in s.returned { AnchoredGrows(s.disk, s'.disk, p); }
      else { assert s'.workers[w] == Returned(p); }
    }
  }

  /** A power loss removes only directories whose own entry was not durable yet. */
  lemma PowerLossKeepsInv(s: State)
    requires Inv(s)
    ensures Inv(Do(s, LosePower))
    ensures Do(s, LosePower).dirs == s.disk
  {
    var s' := Do(s, LosePower);
    forall p | p in s.disk ensures Anchored(s.disk, p) {
      if p == [] { RootIsAnchored(s.disk); } else { AnchoredExtends(s.disk, p); }
    }
    RootIsAnchored(s.disk);
    assert s'.disk == s.disk;
    forall p | p in s.returned ensures p in s'.dirs { assert p[..|p|] == p; }
  }

  lemma OtherStepsKeepInv(s: State, a: Action)
    requires Inv(s) && Enabled(s, a) && (a.Call? || a.Fail? || a.Flush?)
    ensures Inv(Do(s, a))
  {
    var s' := Do(s, a);
    GrowthKeepsAncestors(s, s');
    forall v | v in s'.workers ensures WorkerOk(s', s'.workers[v]) {
      GrowthKeepsWorkers(s, s', s.workers[v]);
    }
  }

  ghost predicate Step(s: State, s': State) {
    exists a :: Enabled(s, a) && s' == Do(s, a)
  }

  ghost predicate Run(states: seq<State>) {
    && |states| > 0 && Init(states[0])
    && forall i :: 0 <= i < |states| - 1 ==> Step(states[i], states[i + 1])
  }

  lemma StepKeepsInv(s: State, a: Action)
    requires Inv(s) && Enabled(s, a)
    ensures Inv(Do(s, a))
    ensures s.returned <= Do(s, a).returned
  {
    match a
    case Go(w) => GoKeepsInv(s, w);
    case LosePower => PowerLossKeepsInv(s);
    case _ => OtherStepsKeepInv(s, a);
  }

  lemma {:induction false} InvAlways(states: seq<State>, i: nat)
    requires Run(states) && i < |states|
    ensures Inv(states[i])
    ensures i > 0 ==> states[i - 1].returned <= states[i].returned
  {
    if i == 0 {
      forall p | p in states[0].dirs && p != [] ensures Anchored(states[0].disk, Parent(p)) {
        forall k | 0 <= k <= |Parent(p)| ensures Parent(p)[..k] in states[0].disk { assert Parent(p)[..k] == p[..k]; }
      }
    } else {
      InvAlways(states, i - 1);
      var a :| Enabled(states[i - 1], a) && states[i] == Do(states[i - 1], a);
      StepKeepsInv(states[i - 1], a);
    }
  }

  /** In every interleaving, every existing directory has all its proper ancestors durable. */
  lemma AncestorsAreAlwaysDurable(states: seq<State>, i: nat, p: Path, k: nat)
    requires Run(states) && i < |states| && p in states[i].dirs && k < |p|
    ensures p[..k] in states[i].disk && p[..k] in states[i].dirs
  {
    InvAlways(states, i);
    assert p[..k] == Parent(p)[..k];
  }

  lemma LastStepKeepsReturned(states: seq<State>, j: nat)
    requires Run(states) && 0 < j < |states|
    ensures states[j - 1].returned <= states[j].returned
  {
    InvAlways(states, j);
  }

  lemma {:induction false} ReturnedStays(states: seq<State>, i: nat, j: nat, p: Path)
    requires Run(states) && i <= j < |states| && p in states[i].returned
    ensures p in states[j].returned
    decreases j - i
  {
    if i < j {
      ReturnedStays(states, i, j - 1, p);
      LastStepKeepsReturned(states, j);
    }
  }

  /** Once any call returned without error, its directory exists and is durable for ever, whatever fails later. */
  lemma ReturnedDirectoriesSurvive(states: seq<State>, i: nat, j: nat, p: Path)
    requires Run(states) && i <= j < |states| && p in states[i].returned
    ensures p in states[j].dirs && Anchored(states[j].disk, p)
    ensures p in Do(states[j], LosePower).dirs
  {
    ReturnedStays(states, i, j, p);
    InvAlways(states, j);
    assert p[..|p|] == p;
  }

  // ---------------------------------------------------------------- termination

  /** Calls still to make on the way up to an existing ancestor and back down. */
  function Left(pc: Pc): nat {
    match pc
    case Stat(t, k) => 2 * |t| + k + 2
    case Mkdir(t, k) => if k <= |t| then 2 * (|t| - k) + 2 else 1
    case SyncParent(t, k) => if k <= |t| then 2 * (|t| - k) + 1 else 1
    case _ => 0
  }

  /** What the other actions are: a call begins at its target, a failure ends it, an entry reaches the disk, power is lost. */
  lemma OtherActions(s: State, a: Action)
    requires Enabled(s, a) && !a.Go?
    ensures match a
            case Call(w, t) => Do(s, a) == s.(workers := Do(s, a).workers) && Do(s, a).workers == s.workers[w := Stat(t, |t|)]
            case Fail(w) => Do(s, a) == s.(workers := Do(s, a).workers) && Do(s, a).workers == s.workers[w := Away]
            case Flush(p) => Do(s, a) == s.(disk := Do(s, a).disk) && Do(s, a).disk == s.disk + {p}
            case LosePower =>
              && Do(s, a).disk == Do(s, a).dirs && Do(s, a).returned == s.returned
              && (forall p :: p in Do(s, a).dirs <==> p in s.disk && Anchored(s.disk, p))
              && (forall w :: w in s.workers ==> w in Do(s, a).workers && Do(s, a).workers[w].Away?)
            case _ => true
  {
  }

  function TargetOf(pc: Pc): Path {
    match pc
    case Away => []
    case Stat(t, _) => t
    case Mkdir(t, _) => t
    case SyncParent(t, _) => t
    case Returned(t) => t
  }

  /** The call for this directory has returned: it exists, and its whole path is durable. */
  ghost predicate HasReturned(s: State, w: nat, target: Path) {
    Inv(s) && w in s.workers && s.workers[w] == Returned(target) && target in s.dirs && Anchored(s.disk, target)
  }

  lemma ReturnedCallIsDone(s: State, w: nat)
    requires Inv(s) && w in s.workers && s.workers[w] != Away && !Enabled(s, Go(w))
    ensures HasReturned(s, w, TargetOf(s.workers[w]))
  {
    assert WorkerOk(s, s.workers[w]);
  }

  /** So many calls of one worker, without a failure, lead from one state to the other. */
  ghost predicate Leads(s: State, w: nat, n: nat, end: State)
    decreases n
  {
    w in s.workers && if n == 0 || !Enabled(s, Go(w)) then end == s else Leads(Do(s, Go(w)), w, n - 1, end)
  }

  lemma NextCall(s: State, w: nat, n: nat, end: State) returns (s': State)
    requires Inv(s) && Enabled(s, Go(w)) && n >= Left(s.workers[w]) && Leads(s, w, n, end)
    ensures Inv(s') && w in s'.workers && s'.workers[w] != Away && TargetOf(s'.workers[w]) == TargetOf(s.workers[w])
    ensures n > 0 && n - 1 >= Left(s'.workers[w]) && Leads(s', w, n - 1, end)
  {
    s' := Do(s, Go(w));
    GoKeepsInv(s, w);
    EveryCallMakesProgress(s, w);
    assert WorkerOk(s, s.workers[w]);
    match s.workers[w]
    case Stat(t, k) => if k == 0 { assert t[..k] == []; }
    case Mkdir(t, k) => assert Parent(t[..k]) == t[..k - 1];
    case SyncParent(_, _) =>
  }

  /**
    A call that meets no failure returns, after at most 3|dir| + 2 calls to the system, and then its
    directory exists and its whole path is durable.
  */
  lemma {:induction false} CallsReturn(s: State, w: nat, n: nat, end: State)
    requires Inv(s) && w in s.workers && s.workers[w] != Away && n >= Left(s.workers[w]) && Leads(s, w, n, end)
    ensures HasReturned(end, w, TargetOf(s.workers[w]))
    decreases n
  {
    if Enabled(s, Go(w)) {
      var s' := NextCall(s, w, n, end);
      CallsReturn(s', w, n - 1, end);
    } else {
      ReturnedCallIsDone(s, w);
    }
  }

  lemma CallsLeft(t: Path)
    ensures Left(Stat(t, |t|)) == 3 * |t| + 2
  {
  }

  /** Every call of a worker brings it closer to its return: at most 3|dir| + 2 calls, whatever the others do. */
  lemma EveryCallMakesProgress(s: State, w: nat)
    requires Enabled(s, Go(w))
    ensures Left(Do(s, Go(w)).workers[w]) < Left(s.workers[w])
    ensures forall v :: v in s.workers && v != w ==> Do(s, Go(w)).workers[v] == s.workers[v]
  {
  }
}

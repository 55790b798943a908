/**
  Plan.Prepare: a task's command is wrapped by the selected integrations, the first one outermost.
  Each wrapper is a shell command that holds the command inside as one quoted argument.

  Publishing a Git snapshot and parsing S3 options are inputs.  Options travel as JSON, which is
  an encoding with an inverse and without NUL.
*/
module Integrations {
  import opened Numbers
  import opened ScriptTexts
  import opened Wrappers
  import opened Shell
  import C = Cleanup

  datatype Value = String(s: string) | Integer(n: int) | Boolean(b: bool) | StringList(l: seq<string>)
  type Options = map<string, Value>

  datatype Json = Json(marshal: Options -> string, decode: string -> Option<Options>)

  ghost predicate Faithful(json: Json) {
    forall o :: json.decode(json.marshal(o)) == Some(o) && '\0' !in json.marshal(o)
  }

  datatype Task = Task(id: string, command: string, cleanup: int)

  datatype Snapshot = Snapshot(remote: string, endpoint: string, ref: string, commit: string)

  /** One selected integration, with what its I/O gives: a published snapshot, a parsed S3 configuration. */
  datatype Step =
    | Git(published: Option<Snapshot>, remotesAccepted: bool)
    | S3(options: Options, final: Option<nat>, valid: bool)
    | Other(prepare: Task -> Option<Task>)

  datatype Error = Refused | CleanupOutOfRange | IdentityChanged

  // ---------------------------------------------------------------- wrappers

  const RUNTIME := Script(RUN, [" ", " ", " ", ""])

  function GitScript(format: string): Script {
    Script(ROUTING_RESET + (OPEN + REQUIRE_GIT + INIT) + (format + SET_ORIGIN), [FETCH, " ", CHECK, CHECKOUT, RUN_COMMAND, ""])
  }

  function RuntimeCommand(json: Json, name: string, options: Options, task: Task): string {
    Render(RUNTIME, [name, json.marshal(options), task.command, FormatInt(C.Milliseconds(task.cleanup))])
  }

  predicate CommitHash(commit: string) {
    |commit| in {40, 64} && forall i :: 0 <= i < |commit| ==> IsDigit(commit[i]) || 'a' <= commit[i] <= 'f'
  }

  predicate SnapshotValid(s: Snapshot, remotesAccepted: bool) {
    remotesAccepted && s.remote != "" && s.ref != "" && CommitHash(s.commit) && '\0' !in s.remote && '\0' !in s.ref
  }

  function SnapshotOptions(s: Snapshot): Options {
    map["remote" := String(s.remote), "endpoint" := String(s.endpoint), "ref" := String(s.ref), "commit" := String(s.commit)]
  }

  /** Git.Run: the snapshot that a worker reads from the options, where an absent one is empty. */
  function SnapshotOf(options: Options): Snapshot {
    Snapshot(StringAt(options, "remote"), StringAt(options, "endpoint"), StringAt(options, "ref"), StringAt(options, "commit"))
  }

  function StringAt(options: Options, key: string): string {
    if key in options && options[key].String? then options[key].s else ""
  }

  lemma SnapshotsReadBack(s: Snapshot)
    ensures SnapshotOf(SnapshotOptions(s)) == s
  {
  }

  /** A commit of 40 digits needs a SHA-1 repository, one of 64 a SHA-256 repository. */
  lemma FormatFitsTheCommit(commit: string)
    requires CommitHash(commit)
    ensures |commit| == 40 ==> Format(commit) == "sha1"
    ensures |commit| == 64 ==> Format(commit) == "sha256"
  {
  }

  function Format(commit: string): string {
    if |commit| == 64 then "sha256" else "sha1"
  }

  function GitWords(s: Snapshot, command: string): seq<string> {
    [s.remote, s.remote, s.ref, s.commit + "^{commit}", s.commit, command]
  }

  /** GitSnapshot.wrap. */
  function WrapGit(json: Json, s: Snapshot, remotesAccepted: bool, task: Task): Option<string> {
    if !SnapshotValid(s, remotesAccepted) || '\0' in task.command then None
    else if s.endpoint != "" then Some(RuntimeCommand(json, "git", SnapshotOptions(s), task))
    else Some(Render(GitScript(Format(s.commit)), GitWords(s, task.command)))
  }

  function PrepareStep(json: Json, step: Step, task: Task): Option<Task> {
    match step
    case Git(None, _) => None
    case Git(Some(s), accepted) =>
      (match WrapGit(json, s, accepted, task)
       case None => None
       case Some(command) => Some(task.(command := command)))
    case S3(options, final, valid) =>
      if !valid then None
      else Some(Task(task.id, RuntimeCommand(json, "s3", options, task), task.cleanup + if final.Some? then final.value else 0))
    case Other(prepare) => prepare(task)
  }

  function Checked(prepared: Option<Task>, id: string): Result<Task, Error> {
    match prepared
    case None => Err(Refused)
    case Some(t) =>
      if t.cleanup < 0 || t.cleanup > C.DAY then Err(CleanupOutOfRange)
      else if t.id != id then Err(IdentityChanged)
      else Ok(t)
  }

  /** What a plan makes of a task: the later steps wrap it first. */
  function Composed(json: Json, steps: seq<Step>, task: Task): Result<Task, Error> {
    if steps == [] then Ok(task)
    else match Composed(json, steps[1..], task)
      case Err(e) => Err(e)
      case Ok(inner) => Checked(PrepareStep(json, steps[0], inner), task.id)
  }

  lemma {:induction false} FailuresStay(json: Json, before: seq<Step>, steps: seq<Step>, task: Task)
    requires Composed(json, steps, task).Err?
    ensures Composed(json, before + steps, task) == Composed(json, steps, task)
  {
    if before == [] {
      assert before + steps == steps;
    } else {
      assert (before + steps)[1..] == before[1..] + steps;
      FailuresStay(json, before[1..], steps, task);
    }
  }

  /** Plan.Prepare. */
  method Prepare(json: Json, steps: seq<Step>, task: Task) returns (r: Result<Task, Error>)
    ensures r == Composed(json, steps, task)
  {
    var current := task;
    var i := |steps|;
    while i > 0
      invariant 0 <= i <= |steps|
      invariant Composed(json, steps[i..], task) == Ok(current)
    {
      i := i - 1;
      assert steps[i..][1..] == steps[i + 1..] && steps[i..][0] == steps[i];
      var checked := Checked(PrepareStep(json, steps[i], current), task.id);
      if checked.Err? {
        FailuresStay(json, steps[..i], steps[i..], task);
        assert steps[..i] + steps[i..] == steps;
        return checked;
      }
      current := checked.value;
    }
    assert steps[0..] == steps;
    return Ok(current);
  }

  // ---------------------------------------------------------------- unwrapping

  datatype Layer =
    | Runtime(name: string, options: Options, cleanupMs: int)
    | GitRuntime(snapshot: Snapshot, cleanupMs: int)
    | GitSetup(remote: string, ref: string, commit: string)

  function RuntimeLayer(name: string, options: Options, cleanupMs: int): Layer {
    if name == "git" then GitRuntime(SnapshotOf(options), cleanupMs) else Runtime(name, options, cleanupMs)
  }

  function PeelRuntime(json: Json, s: string): Option<(Layer, string)> {
    match Arguments(RUNTIME, s)
    case None => None
    case Some(w) =>
      match (json.decode(w[1]), ParseInt(w[3]))
      case (Some(options), Some(ms)) => Some((RuntimeLayer(w[0], options, ms), w[2]))
      case _ => None
  }

  function PeelScript(s: string, format: string): Option<(Layer, string)> {
    match Arguments(GitScript(format), s)
    case None => None
    case Some(w) =>
      if w[0] == w[1] && w[3] == w[4] + "^{commit}" && Format(w[4]) == format then Some((GitSetup(w[0], w[2], w[4]), w[5])) else None
  }

  function Else<T>(a: Option<T>, b: Option<T>): Option<T> {
    if a.Some? then a else b
  }

  /** What a shell and the nextask binary read in a wrapped command: the outer layer and the command inside. */
  function Peel(json: Json, s: string): Option<(Layer, string)> {
    Else(PeelRuntime(json, s), Else(PeelScript(s, "sha1"), PeelScript(s, "sha256")))
  }

  function PeelAll(json: Json, n: nat, s: string): Option<(seq<Layer>, string)> {
    if n == 0 then Some(([], s))
    else match Peel(json, s)
      case None => None
      case Some(outer) =>
        match PeelAll(json, n - 1, outer.1)
        case None => None
        case Some(inner) => Some(([outer.0] + inner.0, inner.1))
  }

  predicate Builtin(step: Step) {
    match step
    case Git(published, _) => published.Some?
    case S3(_, _, _) => true
    case Other(_) => false
  }

  /** The layer a step puts around a task. */
  function LayerOf(step: Step, inner: Task): Layer
    requires Builtin(step)
  {
    match step
    case Git(published, _) =>
      var s := published.value;
      if s.endpoint != "" then GitRuntime(s, C.Milliseconds(inner.cleanup)) else GitSetup(s.remote, s.ref, s.commit)
    case S3(options, _, _) => Runtime("s3", options, C.Milliseconds(inner.cleanup))
  }

  lemma RuntimeReadsBack(json: Json, name: string, options: Options, task: Task)
    requires Faithful(json) && '\0' !in name
    ensures PeelRuntime(json, RuntimeCommand(json, name, options, task)) ==
      if '\0' in task.command then None else Some((RuntimeLayer(name, options, C.Milliseconds(task.cleanup)), task.command))
  {
    var words := [name, json.marshal(options), task.command, FormatInt(C.Milliseconds(task.cleanup))];
    assert Separated(RUNTIME.after);
    ScriptsReadBack(RUNTIME, words);
    ParseReadsFormat(C.Milliseconds(task.cleanup));
    assert json.decode(json.marshal(options)) == Some(options);
    assert NulFree(words) <==> '\0' !in words[2];
  }

  /** A runtime wrapper is not a Git script, and the two kinds of Git script differ. */
  lemma HeadsDiffer(p: string, a: string, b: string, rest: string, i: nat)
    requires i < |a| && i < |b| && a[i] != b[i]
    ensures !StartsWith(p + a + rest, p + b)
  {
    var s := p + a + rest;
    assert s[|p| + i] == a[i] && (p + b)[|p| + i] == b[i];
    assert |p| + i < |p + b| <= |s| ==> s[..|p + b|][|p| + i] == s[|p| + i];
  }

  lemma GitWordsAreNulFree(s: Snapshot, command: string)
    requires '\0' !in s.remote && '\0' !in s.ref && CommitHash(s.commit)
    ensures NulFree(GitWords(s, command)) <==> '\0' !in command
  {
    var words := GitWords(s, command);
    assert '\0' !in words[0] && '\0' !in words[2] && '\0' !in words[4];
    assert '\0' !in words[3];
    assert words[5] == command;
  }

  lemma GitHeadIsPlain(format: string)
    requires '\0' !in format
    ensures Plain(GitScript(format).head, 'u')
  {
    RoutingResetIsPlain();
    OpenIsPlain();
    RequireGitIsPlain();
    InitIsPlain();
    SetOriginIsPlain();
    NulIn(OPEN, REQUIRE_GIT);
    NulIn(OPEN + REQUIRE_GIT, INIT);
    NulIn(ROUTING_RESET, OPEN + REQUIRE_GIT + INIT);
    NulIn(format, SET_ORIGIN);
    NulIn(ROUTING_RESET + (OPEN + REQUIRE_GIT + INIT), format + SET_ORIGIN);
  }

  lemma GitTextsArePlain(format: string)
    requires '\0' !in format
    ensures '\0' !in GitScript(format).head && NulFree(GitScript(format).after) && Separated(GitScript(format).after)
  {
    GitHeadIsPlain(format);
    FetchIsPlain();
    CheckIsPlain();
    CheckoutIsPlain();
    RunCommandIsPlain();
  }

  lemma GitReadsBack(s: Snapshot, command: string)
    requires '\0' !in s.remote && '\0' !in s.ref && CommitHash(s.commit)
    ensures PeelScript(Render(GitScript(Format(s.commit)), GitWords(s, command)), Format(s.commit)) ==
      if '\0' in command then None else Some((GitSetup(s.remote, s.ref, s.commit), command))
  {
    var script := GitScript(Format(s.commit));
    GitTextsArePlain(Format(s.commit));
    ScriptsReadBack(script, GitWords(s, command));
    GitWordsAreNulFree(s, command);
  }

  lemma GitIsNotOther(json: Json, s: Snapshot, command: string, format: string)
    requires format in {"sha1", "sha256"} && format != Format(s.commit)
    ensures PeelRuntime(json, Render(GitScript(Format(s.commit)), GitWords(s, command))) == None
    ensures PeelScript(Render(GitScript(Format(s.commit)), GitWords(s, command)), format) == None
  {
    var text := Render(GitScript(Format(s.commit)), GitWords(s, command));
    RunIsPlain();
    RoutingResetIsPlain();
    assert text[0] == 'u' && RUN[0] == 'e';
    var tail := RenderTail(GitScript(format).after, GitWords(s, command));
    HeadsDiffer(ROUTING_RESET + (OPEN + REQUIRE_GIT + INIT), Format(s.commit) + SET_ORIGIN, format + SET_ORIGIN, tail, 3);
  }

  lemma RuntimeKeepsNul(json: Json, name: string, options: Options, task: Task)
    requires Faithful(json) && '\0' !in name
    ensures '\0' in RuntimeCommand(json, name, options, task) <==> '\0' in task.command
  {
    var words := [name, json.marshal(options), task.command, FormatInt(C.Milliseconds(task.cleanup))];
    RunIsPlain();
    ParseReadsFormat(C.Milliseconds(task.cleanup));
    assert json.decode(json.marshal(options)) == Some(options);
    ScriptKeepsNul(RUNTIME, words);
    assert NulFree(words) <==> '\0' !in words[2];
  }

  lemma GitKeepsNul(s: Snapshot, command: string)
    requires '\0' !in s.remote && '\0' !in s.ref && CommitHash(s.commit)
    ensures '\0' in Render(GitScript(Format(s.commit)), GitWords(s, command)) <==> '\0' in command
  {
    GitTextsArePlain(Format(s.commit));
    ScriptKeepsNul(GitScript(Format(s.commit)), GitWords(s, command));
    GitWordsAreNulFree(s, command);
  }

  // ---------------------------------------------------------------- what a prepared command means

  /** One wrapper is read back exactly, unless the command inside holds a NUL. */
  lemma StepReadsBack(json: Json, step: Step, inner: Task, outer: Task)
    requires Faithful(json) && Builtin(step) && PrepareStep(json, step, inner) == Some(outer)
    ensures Peel(json, outer.command) == if '\0' in inner.command then None else Some((LayerOf(step, inner), inner.command))
    ensures '\0' in outer.command <==> '\0' in inner.command
  {
    match step
    case Git(published, accepted) =>
      var s := published.value;
      if s.endpoint != "" {
        SnapshotsReadBack(s);
        RuntimeReadsBack(json, "git", SnapshotOptions(s), inner);
        RuntimeKeepsNul(json, "git", SnapshotOptions(s), inner);
      } else {
        GitReadsBack(s, inner.command);
        GitKeepsNul(s, inner.command);
        GitIsNotOther(json, s, inner.command, if Format(s.commit) == "sha1" then "sha256" else "sha1");
      }
    case S3(options, final, valid) =>
      RuntimeReadsBack(json, "s3", options, inner);
      RuntimeKeepsNul(json, "s3", options, inner);
      RuntimeIsNotGit(json, "s3", options, inner, "sha1");
      RuntimeIsNotGit(json, "s3", options, inner, "sha256");
  }

  lemma RuntimeIsNotGit(json: Json, name: string, options: Options, task: Task, format: string)
    ensures PeelScript(RuntimeCommand(json, name, options, task), format) == None
  {
    RunIsPlain();
    RoutingResetIsPlain();
    assert RuntimeCommand(json, name, options, task)[0] == 'e' && GitScript(format).head[0] == 'u';
  }

  predicate AllBuiltin(steps: seq<Step>) {
    forall i :: 0 <= i < |steps| ==> Builtin(steps[i])
  }

  /** The layers a plan puts around a task, outermost first: one for each selected step, in order. */
  function Layers(json: Json, steps: seq<Step>, task: Task): (layers: seq<Layer>)
    requires AllBuiltin(steps) && Composed(json, steps, task).Ok?
    ensures |layers| == |steps|
  {
    if steps == [] then []
    else [LayerOf(steps[0], Composed(json, steps[1..], task).value)] + Layers(json, steps[1..], task)
  }

  /** The last step of a plan that was accepted. */
  lemma OuterStep(json: Json, steps: seq<Step>, task: Task)
    requires steps != [] && Composed(json, steps, task).Ok?
    ensures
      var outer := Composed(json, steps, task).value;
      && Composed(json, steps[1..], task).Ok?
      && PrepareStep(json, steps[0], Composed(json, steps[1..], task).value) == Some(outer)
      && 0 <= outer.cleanup <= C.DAY && outer.id == task.id
  {
  }

  lemma PeelOne(json: Json, n: nat, s: string, layer: Layer, inner: string, layers: seq<Layer>, core: string)
    requires Peel(json, s) == Some((layer, inner)) && PeelAll(json, n, inner) == Some((layers, core))
    ensures PeelAll(json, n + 1, s) == Some(([layer] + layers, core))
  {
  }

  lemma PeelNothing(json: Json, n: nat, s: string)
    requires Peel(json, s) == None && n > 0
    ensures PeelAll(json, n, s) == None
  {
  }

  /** The command unwraps to these layers around the core, unless there is something to unwrap and a NUL in the way. */
  predicate Unwraps(json: Json, command: string, layers: seq<Layer>, core: string) {
    && ('\0' in command <==> '\0' in core)
    && PeelAll(json, |layers|, command) == if layers != [] && '\0' in core then None else Some((layers, core))
  }

  lemma {:induction false} LayersUnwrap(json: Json, steps: seq<Step>, task: Task)
    requires Faithful(json) && AllBuiltin(steps) && Composed(json, steps, task).Ok?
    ensures Unwraps(json, Composed(json, steps, task).value.command, Layers(json, steps, task), task.command)
    decreases |steps|
  {
    if steps != [] {
      OuterStep(json, steps, task);
      FirstLayer(json, steps, task);
      LayersUnwrap(json, steps[1..], task);
      OuterLayerUnwraps(json, steps[0], Composed(json, steps[1..], task).value,
        Composed(json, steps, task).value, task.command, Layers(json, steps[1..], task));
    }
  }

  /** One more layer around a command that unwraps to `layers`. */
  lemma OuterLayerUnwraps(json: Json, step: Step, inner: Task, outer: Task, core: string, layers: seq<Layer>)
    requires Faithful(json) && Builtin(step) && PrepareStep(json, step, inner) == Some(outer)
    requires Unwraps(json, inner.command, layers, core)
    ensures Unwraps(json, outer.command, [LayerOf(step, inner)] + layers, core)
  {
    StepReadsBack(json, step, inner, outer);
    LayerUnwraps(json, Peel(json, outer.command), outer.command, LayerOf(step, inner), inner.command, core, layers);
  }

  lemma LayerUnwraps(json: Json, peeled: Option<(Layer, string)>, outer: string, layer: Layer, inner: string, core: string, layers: seq<Layer>)
    requires peeled == Peel(json, outer) && peeled == if '\0' in inner then None else Some((layer, inner))
    requires '\0' in outer <==> '\0' in inner
    requires Unwraps(json, inner, layers, core)
    ensures Unwraps(json, outer, [layer] + layers, core)
  {
    if '\0' in core {
      PeelNothing(json, |layers| + 1, outer);
    } else {
      PeelOne(json, |layers|, outer, layer, inner, layers, core);
    }
  }

  /**
    The command Prepare builds unwraps to the selected steps in order, outermost first, around
    the original command, exactly when there is nothing to unwrap or the command has no NUL.
  */
  lemma {:induction false} PreparedCommandsUnwrap(json: Json, steps: seq<Step>, task: Task)
    requires Faithful(json) && AllBuiltin(steps) && Composed(json, steps, task).Ok?
    ensures
      PeelAll(json, |steps|, Composed(json, steps, task).value.command) == Some((Layers(json, steps, task), task.command))
      <==> steps == [] || '\0' !in task.command
  {
    LayersUnwrap(json, steps, task);
  }

  // ---------------------------------------------------------------- cleanup budgets

  /** The final upload a step adds at its own level. */
  function Final(step: Step): nat {
    match step
    case S3(_, final, _) => if final.Some? then final.value else 0
    case _ => 0
  }

  function Finals(steps: seq<Step>): nat {
    if steps == [] then 0 else Final(steps[0]) + Finals(steps[1..])
  }

  /** The cleanup timeout of a plan is the task's own plus every final upload, and each level is in range. */
  lemma {:induction false} BudgetsAdd(json: Json, steps: seq<Step>, task: Task)
    requires AllBuiltin(steps) && Composed(json, steps, task).Ok?
    ensures Composed(json, steps, task).value.cleanup == task.cleanup + Finals(steps)
    ensures steps != [] ==> 0 <= Composed(json, steps, task).value.cleanup <= C.DAY
    decreases |steps|
  {
    if steps != [] {
      OuterStep(json, steps, task);
      BudgetsAdd(json, steps[1..], task);
    }
  }

  /** A snapshot that names its remote and ref, and its commit by a full hash in lower-case hexadecimal digits. */
  predicate Complete(s: Snapshot) {
    && s.remote != "" && s.ref != "" && '\0' !in s.remote + s.ref
    && (|s.commit| == 40 || |s.commit| == 64) && forall i :: 0 <= i < |s.commit| ==> s.commit[i] in "0123456789abcdef"
  }

  lemma HexDigits(c: char)
    ensures IsDigit(c) || 'a' <= c <= 'f' <==> c in "0123456789abcdef"
  {
    var digits := "0123456789abcdef";
    assert IsDigit(c) ==> digits[c as int - 48] == c;
    assert 'a' <= c <= 'f' ==> digits[c as int - 87] == c;
  }

  /** The snapshots that can be wrapped are the complete ones whose remotes were accepted. */
  lemma ValidSnapshotsAreComplete(s: Snapshot, accepted: bool)
    ensures SnapshotValid(s, accepted) <==> accepted && Complete(s)
  {
    forall i | 0 <= i < |s.commit| ensures IsDigit(s.commit[i]) || 'a' <= s.commit[i] <= 'f' <==> s.commit[i] in "0123456789abcdef" {
      HexDigits(s.commit[i]);
    }
    NulIn(s.remote, s.ref);
  }

  /** A step's own conditions: a published snapshot that is valid, or a configuration that can be read. */
  predicate Accepts(step: Step) {
    match step
    case Git(published, accepted) => published.Some? && accepted && Complete(published.value)
    case S3(_, _, valid) => valid
    case Other(_) => false
  }

  /** What stands in the way of the i-th step of a plan; a Git wrapper takes no command with a NUL. */
  function Refusal(steps: seq<Step>, task: Task, i: nat): Option<Error>
    requires i < |steps|
  {
    if !Accepts(steps[i]) || (steps[i].Git? && '\0' in task.command) then Some(Refused)
    else if !(0 <= task.cleanup + Finals(steps[i..]) <= C.DAY) then Some(CleanupOutOfRange)
    else None
  }

  /** The i-th step fails so, and those after it, which are prepared before, do not. */
  predicate FailsAt(steps: seq<Step>, task: Task, i: nat, e: Error) {
    i < |steps| && Refusal(steps, task, i) == Some(e) && forall j :: i < j < |steps| ==> Refusal(steps, task, j).None?
  }

  lemma RefusalOfRest(steps: seq<Step>, task: Task)
    requires steps != []
    ensures forall i: nat :: i < |steps| - 1 ==> Refusal(steps[1..], task, i) == Refusal(steps, task, i + 1)
    ensures forall i: nat, e :: FailsAt(steps[1..], task, i, e) ==> FailsAt(steps, task, i + 1, e)
  {
    forall i: nat | i < |steps| - 1 ensures Refusal(steps[1..], task, i) == Refusal(steps, task, i + 1) {
      assert steps[1..][i..] == steps[i + 1..];
    }
    forall i: nat, e | FailsAt(steps[1..], task, i, e) ensures FailsAt(steps, task, i + 1, e) {
      forall j | i + 1 < j < |steps| ensures Refusal(steps, task, j).None? { assert Refusal(steps[1..], task, j - 1).None?; }
    }
  }

  lemma FirstStepExactly(json: Json, steps: seq<Step>, task: Task)
    requires Faithful(json) && AllBuiltin(steps) && steps != [] && Composed(json, steps[1..], task).Ok?
    ensures match Refusal(steps, task, 0)
            case None => Composed(json, steps, task).Ok?
            case Some(e) => Composed(json, steps, task) == Err(e)
  {
    var inner := Composed(json, steps[1..], task).value;
    LayersUnwrap(json, steps[1..], task);
    BudgetsAdd(json, steps[1..], task);
    ComposedKeepsId(json, steps[1..], task);
    assert steps[0..] == steps;
    StepExactly(json, steps[0], inner);
  }

  lemma {:induction false} ComposedKeepsId(json: Json, steps: seq<Step>, task: Task)
    requires Composed(json, steps, task).Ok?
    ensures Composed(json, steps, task).value.id == task.id
  {
  }

  lemma StepExactly(json: Json, step: Step, inner: Task)
    requires Builtin(step)
    ensures PrepareStep(json, step, inner).None? <==> !Accepts(step) || (step.Git? && '\0' in inner.command)
    ensures PrepareStep(json, step, inner).Some? ==>
      && PrepareStep(json, step, inner).value.id == inner.id
      && PrepareStep(json, step, inner).value.cleanup == inner.cleanup + Final(step)
  {
    if step.Git? && step.published.Some? { ValidSnapshotsAreComplete(step.published.value, step.remotesAccepted); }
  }

  /**
    Exactly which plans can be prepared: every step accepts its configuration, no Git wrapper is put
    around a command with a NUL, and every cleanup timeout on the way is in range.  Otherwise the
    error is that of the last step that cannot, which is the first to be prepared.
  */
  lemma {:induction false} PlansPrepareExactly(json: Json, steps: seq<Step>, task: Task)
    requires Faithful(json) && AllBuiltin(steps)
    ensures Composed(json, steps, task).Ok? <==> forall i: nat :: i < |steps| ==> Refusal(steps, task, i).None?
    ensures Composed(json, steps, task).Err? ==> exists i: nat :: FailsAt(steps, task, i, Composed(json, steps, task).error)
    decreases |steps|
  {
    if steps != [] {
      PlansPrepareExactly(json, steps[1..], task);
      RefusalOfRest(steps, task);
      if Composed(json, steps[1..], task).Ok? {
        FirstStepExactly(json, steps, task);
        forall j: nat | 0 < j < |steps| ensures Refusal(steps, task, j).None? { assert Refusal(steps[1..], task, j - 1).None?; }
        if Composed(json, steps, task).Err? { assert FailsAt(steps, task, 0, Composed(json, steps, task).error); }
      } else {
        var e := Composed(json, steps[1..], task).error;
        var i: nat :| FailsAt(steps[1..], task, i, e);
        assert FailsAt(steps, task, i + 1, e);
      }
    }
  }

  lemma FirstBudget(json: Json, step: Step, rest: seq<Step>, task: Task, inner: Task, outer: Task)
    requires Builtin(step) && AllBuiltin(rest) && task.cleanup >= 0
    requires Composed(json, rest, task) == Ok(inner) && Composed(json, [step] + rest, task) == Ok(outer)
    ensures 0 <= inner.cleanup <= outer.cleanup == inner.cleanup + Final(step) <= C.DAY
  {
    assert ([step] + rest)[1..] == rest;
    OuterStep(json, [step] + rest, task);
    BudgetsAdd(json, [step] + rest, task);
    BudgetsAdd(json, rest, task);
  }

  lemma FirstLayer(json: Json, steps: seq<Step>, task: Task)
    requires AllBuiltin(steps) && steps != [] && Composed(json, steps, task).Ok?
    ensures Composed(json, steps[1..], task).Ok?
    ensures Layers(json, steps, task) ==
      [LayerOf(steps[0], Composed(json, steps[1..], task).value)] + Layers(json, steps[1..], task)
  {
    OuterStep(json, steps, task);
  }

  /** Every level of a plan is a plan, and its layer carries the timeout of the level inside. */
  lemma {:induction false} LevelsAreComposed(json: Json, steps: seq<Step>, task: Task, i: nat)
    requires AllBuiltin(steps) && Composed(json, steps, task).Ok? && i < |steps|
    ensures Composed(json, steps[i..], task).Ok? && Composed(json, steps[i + 1..], task).Ok?
    ensures Layers(json, steps, task)[i] == LayerOf(steps[i], Composed(json, steps[i + 1..], task).value)
    decreases i
  {
    FirstLayer(json, steps, task);
    if i == 0 {
      assert steps[0..] == steps;
    } else {
      var rest := steps[1..];
      LevelsAreComposed(json, rest, task, i - 1);
      assert rest[i - 1..] == steps[i..] && rest[i..] == steps[i + 1..] && rest[i - 1] == steps[i];
    }
  }

  /**
    Budgets nest at every level, a step around any plan: the level outside waits at least as long
    as the level inside takes to stop plus its own final upload when that is whole milliseconds,
    and is never short by a millisecond otherwise.  The timeout a runtime command carries is
    accepted when it runs.
  */
  lemma BudgetsNest(json: Json, step: Step, rest: seq<Step>, task: Task, inner: Task, outer: Task)
    requires Builtin(step) && AllBuiltin(rest) && task.cleanup >= 0
    requires Composed(json, rest, task) == Ok(inner) && Composed(json, [step] + rest, task) == Ok(outer)
    ensures 0 <= inner.cleanup <= outer.cleanup && C.LevelOk(inner.cleanup, outer.cleanup, Final(step))
  {
    FirstBudget(json, step, rest, task, inner, outer);
    C.LevelsAreOk(inner.cleanup, outer.cleanup, Final(step));
  }
}

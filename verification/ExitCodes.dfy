/** Exit codes and signals as they pass from a task's command through its runtime wrappers. */
module ExitCodes {
  /** How a supervised command ended. */
  datatype Ended = Exited(status: nat) | Signalled(signal: nat)

  predicate Real(e: Ended) {
    match e
    case Exited(status) => status < 256
    case Signalled(signal) => 0 < signal < 128
  }

  /** Whether the command of a level was started: not when the context had ended before, nor when it is refused or fails to start. */
  datatype Start = Starts | EndedBefore | CannotStart

  /** What happened at one level besides the command: its start, an interrupt, and a final upload that failed and counts. */
  datatype Level = Level(start: Start, interrupted: bool, finalFailed: bool)

  const SIGINT := 2

  /** taskexec.Run: the code of a result, negative for a signal. */
  function Code(e: Ended, interrupted: bool): int {
    var code := match e case Exited(status) => status as int case Signalled(signal) => -(signal as int);
    if interrupted && code == 0 then -SIGINT else code
  }

  /** taskexec.Run without a command that ran. */
  function CodeWithout(start: Start): int {
    if start.EndedBefore? then 130 else 1
  }

  /** storage.Run: only success can be turned into a failure by the final upload. */
  function AfterFinal(code: int, finalFailed: bool): int {
    if finalFailed && code == 0 then 1 else code
  }

  /** Result.ShellCode: how a runtime process reports its command's result. */
  function ShellCode(code: int): int {
    if code < 0 then 128 - code else code
  }

  /** The result at the outermost level; `levels` are outermost first, the command is inside the last. */
  function Result(levels: seq<Level>, command: Ended): (code: int)
    requires levels != [] && Real(command)
    ensures -128 < code < 256
    decreases |levels|
  {
    if !levels[0].start.Starts? then CodeWithout(levels[0].start)
    else
      var inside := if |levels| == 1 then command else Exited(ShellCode(Result(levels[1..], command)));
      AfterFinal(Code(inside, levels[0].interrupted), levels[0].finalFailed)
  }

  /** The outermost n levels were started. */
  predicate AllStart(levels: seq<Level>, n: nat)
    requires n <= |levels|
  {
    forall i :: 0 <= i < n ==> levels[i].start.Starts?
  }

  predicate Quiet(levels: seq<Level>) {
    AllStart(levels, |levels|) && forall i :: 0 <= i < |levels| ==> !levels[i].interrupted && !levels[i].finalFailed
  }

  /** The outermost level whose command was not started. */
  predicate FirstUnstarted(levels: seq<Level>, i: nat) {
    i < |levels| && !levels[i].start.Starts? && AllStart(levels, i)
  }

  /** The innermost level at which something besides the command went wrong. */
  predicate LastTouched(levels: seq<Level>, i: nat) {
    i < |levels| && Touched(levels[i]) && forall j :: i < j < |levels| ==> !Touched(levels[j])
  }

  predicate Touched(l: Level) {
    l.interrupted || l.finalFailed
  }

  /**
    Wrappers never hide a failure and never invent one.  A failing command's code is not replaced,
    and when some level was not started, what is reported is why the outermost such level was not:
    130 when the context had ended, otherwise 1.  Around a command that succeeds the innermost
    interrupt or failed upload decides: 130, or 1.
  */
  lemma {:induction false} WrappersKeepTheOutcome(levels: seq<Level>, command: Ended)
    requires levels != [] && Real(command)
    ensures Result(levels, command) == 0 <==> command == Exited(0) && Quiet(levels)
    ensures AllStart(levels, |levels|) && command != Exited(0) ==> ShellCode(Result(levels, command)) == ShellCode(Code(command, false))
    ensures forall i: nat :: FirstUnstarted(levels, i) ==>
      ShellCode(Result(levels, command)) == if levels[i].start.EndedBefore? then 130 else 1
    ensures AllStart(levels, |levels|) && command == Exited(0) ==>
      forall i: nat :: LastTouched(levels, i) ==> ShellCode(Result(levels, command)) == if levels[i].interrupted then 130 else 1
    decreases |levels|
  {
    if |levels| > 1 && levels[0].start.Starts? {
      WrappersKeepTheOutcome(levels[1..], command);
      assert levels == [levels[0]] + levels[1..];
    }
    forall i: nat | FirstUnstarted(levels, i)
      ensures ShellCode(Result(levels, command)) == if levels[i].start.EndedBefore? then 130 else 1
    {
      if i > 0 { assert FirstUnstarted(levels[1..], i - 1); }
    }
    if AllStart(levels, |levels|) && command == Exited(0) {
      forall i: nat | LastTouched(levels, i) ensures ShellCode(Result(levels, command)) == if levels[i].interrupted then 130 else 1 {
        if i > 0 { assert LastTouched(levels[1..], i - 1); }
      }
    }
  }
}

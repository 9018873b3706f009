// The Verifier: run the commands of a verify bead in order on the submitted head, report the fact.
module Verifier {
  import opened Ids
  import opened Text
  import opened Ledger
  import Transition
  import T = Task

  datatype RunOutput = RunOutput(exitCode: Option<int>, stdout: string, stderr: string, timedOut: bool)

  /** A command either ran, or could not be spawned at all. */
  datatype RunResult = Exited(output: RunOutput) | NotSpawned(error: string)

  predicate Succeeded(r: RunResult) {
    r.Exited? && r.output.exitCode == Some(0) && !r.output.timedOut
  }

  datatype Call = Call(head: Sha, command: string, result: RunResult)

  /** Runs shell commands in a checkout; what they do is up to the outside world. */
  class Runner {
    ghost var log: seq<Call>

    method Run(head: Sha, command: string) returns (r: RunResult)
      modifies this
      ensures log == old(log) + [Call(head, command, r)]
    {
      r := *;
      log := log + [Call(head, command, r)];
    }
  }

  /** `results` is what running `commands` in order until the first failure gives. */
  predicate IsRunOf(commands: seq<string>, results: seq<RunResult>) {
    && |results| <= |commands|
    && (forall i :: 0 <= i < |results| - 1 ==> Succeeded(results[i]))
    && (|results| < |commands| ==> results != [] && !Succeeded(results[|results| - 1]))
  }

  function Calls(head: Sha, commands: seq<string>, results: seq<RunResult>): seq<Call>
    requires |results| <= |commands|
  {
    seq(|results|, i requires 0 <= i < |results| => Call(head, commands[i], results[i]))
  }

  method RunAll(runner: Runner, head: Sha, commands: seq<string>) returns (results: seq<RunResult>)
    modifies runner
    ensures IsRunOf(commands, results)
    ensures runner.log == old(runner.log) + Calls(head, commands, results)
  {
    results := [];
    for i := 0 to |commands|
      invariant |results| == i && forall k :: 0 <= k < i ==> Succeeded(results[k])
      invariant runner.log == old(runner.log) + Calls(head, commands, results)
    {
      var r := runner.Run(head, commands[i]);
      ghost var done := Calls(head, commands, results);
      results := results + [r];
      assert Calls(head, commands, results) == done + [Call(head, commands[i], r)];
      if !Succeeded(r) {
        break;
      }
    }
  }

  // ---- the verdict --------------------------------------------------------------------------------

  function Passed(commands: seq<string>, results: seq<RunResult>): bool {
    |results| == |commands| && forall r :: r in results ==> Succeeded(r)
  }

  /** The verdict passes exactly when no command of the list is missing and none failed; any other run
      ends at its only failure. */
  lemma PassedIffEveryCommandSucceeded(commands: seq<string>, results: seq<RunResult>)
    requires IsRunOf(commands, results)
    ensures Passed(commands, results) <==>
              |results| == |commands| && forall i :: 0 <= i < |results| ==> Succeeded(results[i])
    ensures !Passed(commands, results) ==>
              && results != [] && !Succeeded(results[|results| - 1])
              && forall i :: 0 <= i < |results| - 1 ==> Succeeded(results[i])
  {
    if !Passed(commands, results) && |results| == |commands| {
      var r :| r in results && !Succeeded(r);
      var i :| 0 <= i < |results| && results[i] == r;
    }
  }

  function FirstFailure(results: seq<RunResult>): Option<RunResult> {
    if results == [] then None
    else if !Succeeded(results[0]) then Some(results[0])
    else FirstFailure(results[1..])
  }

  function LowerChar(c: char): char {
    if 'A' <= c <= 'Z' then c - 'A' + 'a' else c
  }

  function Lower(s: string): string {
    seq(|s|, i requires 0 <= i < |s| => LowerChar(s[i]))
  }

  predicate Contains(s: string, part: string) {
    exists i :: 0 <= i <= |s| && part <= s[i..]
  }

  const ENVIRONMENT_SIGNATURES: seq<string> := [
    "permission denied",
    "no space left on device",
    "read-only file system",
    "cannot execute binary file",
    "command not found",
    "could not find `protoc`",
    "could not resolve host",
    "connection refused",
    "network is unreachable",
    "temporary failure in name resolution",
    "no module named",
    "cannot find module",
    "cannot load such file"
  ]

  function FirstSignature(text: string, signatures: seq<string>): Option<string> {
    if signatures == [] then None
    else if Contains(text, signatures[0]) then Some(signatures[0])
    else FirstSignature(text, signatures[1..])
  }

  /** The one-line reason when the first failure is the rig's fault rather than the task's. */
  function Environmental(results: seq<RunResult>): Option<string> {
    match FirstFailure(results)
    case None => None
    case Some(NotSpawned(error)) => Some("verify command could not run: " + error)
    case Some(Exited(o)) =>
      if o.exitCode == Some(126) || o.exitCode == Some(127)
      then Some("verify command exited " + Decimal(o.exitCode.value) + " (not executable / not found)")
      else
        match FirstSignature(Lower(o.stdout + "\n" + o.stderr), ENVIRONMENT_SIGNATURES)
        case None => None
        case Some(signature) => Some("verify output contains `" + signature + "`")
  }

  // ---- the note -------------------------------------------------------------------------------------

  const NOTE_TAIL := 4000

  function Utf8Size(c: char): nat {
    if c < '\U{80}' then 1 else if c < '\U{800}' then 2 else if c < '\U{10000}' then 3 else 4
  }

  function ByteLength(s: string): nat {
    if s == [] then 0 else Utf8Size(s[0]) + ByteLength(s[1..])
  }

  /** The end of `s` from the first character boundary at or after the last 4000 bytes. */
  function Tail(s: string): string {
    if ByteLength(s) <= NOTE_TAIL then s else Tail(s[1..])
  }

  /** The tail is the longest end of the text that fits in 4000 bytes. */
  lemma {:induction false} TailIsLongest(s: string)
    ensures |Tail(s)| <= |s| && Tail(s) == s[|s| - |Tail(s)|..]
    ensures ByteLength(Tail(s)) <= NOTE_TAIL
    ensures forall k :: 0 <= k < |s| - |Tail(s)| ==> ByteLength(s[k..]) > NOTE_TAIL
  {
    if ByteLength(s) > NOTE_TAIL {
      TailIsLongest(s[1..]);
      forall k | 0 <= k < |s| - |Tail(s)|
        ensures ByteLength(s[k..]) > NOTE_TAIL
      {
        if k == 0 {
          assert s[0..] == s;
        } else {
          assert s[k..] == s[1..][k - 1..];
        }
      }
    }
  }

  function StatusText(o: RunOutput): string {
    if o.timedOut then "timed out"
    else match o.exitCode
      case Some(code) => "exit " + Decimal(code)
      case None => "killed"
  }

  const STDERR_RULE := "\n--- stderr ---\n"

  function OutputText(o: RunOutput): string {
    Tail(o.stdout) + if o.stderr == "" then "" else STDERR_RULE + Tail(o.stderr)
  }

  function Entry(command: string, r: RunResult): string {
    "\n$ " + command + "\n" +
    match r
    case Exited(o) => "[" + StatusText(o) + "]\n" + OutputText(o)
    case NotSpawned(error) => "[could not run: " + error + "]"
  }

  function Entries(commands: seq<string>, results: seq<RunResult>): string
    requires |results| <= |commands|
  {
    if results == [] then ""
    else Entry(commands[0], results[0]) + Entries(commands[1..], results[1..])
  }

  function Heading(passed: bool): string {
    if passed then "verify PASSED" else "verify FAILED"
  }

  function NoteText(commands: seq<string>, results: seq<RunResult>): string
    requires |results| <= |commands|
  {
    Heading(Passed(commands, results)) + Entries(commands, results)
  }

  /** `kept` is the longest end of `s` that fits in 4000 bytes. */
  ghost predicate IsEndOf(s: string, kept: string) {
    && |kept| <= |s| && kept == s[|s| - |kept|..] && ByteLength(kept) <= 4000
    && forall k :: 0 <= k < |s| - |kept| ==> ByteLength(s[k..]) > 4000
  }

  /** What a note keeps of a command that ran: the end of its standard output, and, under a rule, the end of its
      standard error if it said anything there; and how it ended. */
  lemma OutputMeans(o: RunOutput) returns (out: string, err: string)
    ensures IsEndOf(o.stdout, out) && IsEndOf(o.stderr, err)
    ensures OutputText(o) == if o.stderr == "" then out else out + ("\n--- stderr ---\n" + err)
    ensures o.timedOut ==> StatusText(o) == "timed out"
    ensures !o.timedOut && o.exitCode.Some? ==> StatusText(o) == "exit " + Decimal(o.exitCode.value)
    ensures !o.timedOut && o.exitCode.None? ==> StatusText(o) == "killed"
  {
    out, err := Tail(o.stdout), Tail(o.stderr);
    TailIsLongest(o.stdout);
    TailIsLongest(o.stderr);
    assert out + "" == out;
  }

  method Summarize(commands: seq<string>, results: seq<RunResult>) returns (passed: bool, note: string)
    requires |results| <= |commands|
    ensures passed == Passed(commands, results)
    ensures note == NoteText(commands, results)
  {
    hide Entry, StatusText, Tail, Environmental;
    passed := |results| == |commands|;
    for i := 0 to |results|
      invariant passed <==> |results| == |commands| && forall r :: r in results[..i] ==> Succeeded(r)
    {
      passed := passed && Succeeded(results[i]);
      assert results[..i + 1] == results[..i] + [results[i]];
    }
    assert results[..|results|] == results;
    note := if passed then "verify PASSED" else "verify FAILED";
    for i := 0 to |results|
      invariant note + Entries(commands[i..], results[i..]) == NoteText(commands, results)
    {
      ghost var rest := Entries(commands[i + 1..], results[i + 1..]);
      EntriesFrom(commands, results, i);
      var entry := WriteEntry(commands[i], results[i]);
      assert (note + entry) + rest == note + (entry + rest);
      note := note + entry;
    }
    assert note + "" == note;
  }

  lemma EntriesFrom(commands: seq<string>, results: seq<RunResult>, i: nat)
    requires i < |results| <= |commands|
    ensures Entries(commands[i..], results[i..])
         == Entry(commands[i], results[i]) + Entries(commands[i + 1..], results[i + 1..])
  {
    assert commands[i..][1..] == commands[i + 1..] && results[i..][1..] == results[i + 1..];
  }

  method WriteEntry(command: string, r: RunResult) returns (text: string)
    ensures text == Entry(command, r)
  {
    text := "\n$ " + command + "\n";
    match r
    case Exited(o) =>
      var body := Tail(o.stdout);
      if o.stderr != "" {
        body := body + ("\n--- stderr ---\n" + Tail(o.stderr));
      } else {
        assert body + "" == body;
      }
      text := text + ("[" + StatusText(o) + "]\n" + body);
    case NotSpawned(error) =>
      text := text + ("[could not run: " + error + "]");
  }

  /** The fact reported to the state machine. A failed run whose first failure is environmental
      blocks; any other failed run fails. */
  function Verdict(commands: seq<string>, results: seq<RunResult>): T.Event
    requires |results| <= |commands|
  {
    var note := NoteText(commands, results);
    if Passed(commands, results) then T.VerifyPassed
    else match Environmental(results)
      case Some(detail) => T.VerifyBlocked(detail + "\n" + note)
      case None => T.VerifyFailed(note)
  }

  /** The command ran to its end within its time and said 0. */
  predicate ExitedWell(r: RunResult) {
    match r
    case Exited(o) => o.exitCode == Some(0) && !o.timedOut
    case NotSpawned(_) => false
  }

  /** What the output of a command says, in lower case letters, when the rig is at fault. */
  predicate NamesTheRig(part: string) {
    || part == "permission denied" || part == "no space left on device" || part == "read-only file system"
    || part == "cannot execute binary file" || part == "command not found" || part == "could not find `protoc`"
    || part == "could not resolve host" || part == "connection refused" || part == "network is unreachable"
    || part == "temporary failure in name resolution"
    || part == "no module named" || part == "cannot find module" || part == "cannot load such file"
  }

  /** `part`, which has no capital letters, occurs in `text` if capitals do not count. */
  ghost predicate Occurs(text: string, part: string) {
    exists i: nat :: OccursAt(text, part, i)
  }

  predicate OccursAt(text: string, part: string, i: nat) {
    i + |part| <= |text|
    && forall k :: 0 <= k < |part| ==>
         part[k] == if 'A' <= text[i + k] <= 'Z' then text[i + k] - 'A' + 'a' else text[i + k]
  }

  /** The rig, not the task, is at fault: the command could not be spawned, was not found or not executable,
      or printed one of the known signatures, in any letter case. */
  ghost predicate IsRigFailure(r: RunResult) {
    || r.NotSpawned?
    || r.output.exitCode == Some(126) || r.output.exitCode == Some(127)
    || exists part :: NamesTheRig(part) && Occurs(r.output.stdout + "\n" + r.output.stderr, part)
  }

  /** What is said of a failure of the rig. */
  ghost predicate SaysRigFailure(r: RunResult, detail: string) {
    match r
    case NotSpawned(error) => detail == "verify command could not run: " + error
    case Exited(o) =>
      if o.exitCode == Some(126) then detail == "verify command exited " + "126" + " (not executable / not found)"
      else if o.exitCode == Some(127) then detail == "verify command exited " + "127" + " (not executable / not found)"
      else exists part :: NamesTheRig(part) && Occurs(o.stdout + "\n" + o.stderr, part)
                          && detail == "verify output contains `" + part + "`"
  }

  lemma ContainsMeans(text: string, part: string)
    ensures Contains(Lower(text), part) <==> Occurs(text, part)
  {
    var lower := Lower(text);
    if i :| 0 <= i <= |lower| && part <= lower[i..] {
      forall k | 0 <= k < |part|
        ensures part[k] == lower[i + k]
      {
        assert part[k] == lower[i..][k];
      }
      assert OccursAt(text, part, i);
    }
    if i: nat :| OccursAt(text, part, i) {
      forall k | 0 <= k < |part|
        ensures part[k] == lower[i..][k]
      {
      }
      assert part <= lower[i..];
    }
  }

  lemma SignaturesAreNames()
    ensures forall k :: 0 <= k < |ENVIRONMENT_SIGNATURES| ==> NamesTheRig(ENVIRONMENT_SIGNATURES[k])
    ensures forall part :: NamesTheRig(part) ==>
              exists k :: 0 <= k < |ENVIRONMENT_SIGNATURES| && ENVIRONMENT_SIGNATURES[k] == part
  {
    var l := ENVIRONMENT_SIGNATURES;
    assert l[0] == "permission denied" && l[1] == "no space left on device" && l[2] == "read-only file system";
    assert l[3] == "cannot execute binary file" && l[4] == "command not found" && l[5] == "could not find `protoc`";
    assert l[6] == "could not resolve host" && l[7] == "connection refused" && l[8] == "network is unreachable";
    assert l[9] == "temporary failure in name resolution" && l[10] == "no module named";
    assert l[11] == "cannot find module" && l[12] == "cannot load such file";
  }

  /** A rig failure is found by the first of the failures, and only then, and described. */
  lemma EnvironmentalIff(results: seq<RunResult>, last: RunResult)
    requires FirstFailure(results) == Some(last)
    ensures Environmental(results).Some? <==> IsRigFailure(last)
    ensures Environmental(results).Some? ==> SaysRigFailure(last, Environmental(results).value)
  {
    hide Contains, Lower, FirstSignature, FirstFailure, Occurs, NamesTheRig;
    if last.Exited? {
      var text := last.output.stdout + "\n" + last.output.stderr;
      DecimalOfCodes();
      SignaturesAreNames();
      FirstSignatureMeans(Lower(text), ENVIRONMENT_SIGNATURES);
      forall part
        ensures Contains(Lower(text), part) <==> Occurs(text, part)
      {
        ContainsMeans(text, part);
      }
    }
  }

  lemma DecimalOfCodes()
    ensures Decimal(126) == "126" && Decimal(127) == "127"
  {
    assert DecimalNat(1) == ['1'] && DecimalNat(12) == ['1'] + ['2'];
    assert DecimalNat(126) == ['1'] + ['2'] + ['6'] && DecimalNat(127) == ['1'] + ['2'] + ['7'];
  }

  lemma {:induction false} FirstSignatureMeans(text: string, signatures: seq<string>)
    ensures FirstSignature(text, signatures).Some? <==>
              exists k :: 0 <= k < |signatures| && Contains(text, signatures[k])
    ensures FirstSignature(text, signatures).Some? ==>
              exists k :: 0 <= k < |signatures| && FirstSignature(text, signatures).value == signatures[k]
                && Contains(text, signatures[k]) && forall j :: 0 <= j < k ==> !Contains(text, signatures[j])
  {
    hide Contains;
    if signatures != [] {
      FirstSignatureMeans(text, signatures[1..]);
      if k :| 0 <= k < |signatures| && Contains(text, signatures[k]) {
        assert k > 0 ==> signatures[1..][k - 1] == signatures[k];
      }
      if k :| 0 <= k < |signatures[1..]| && Contains(text, signatures[1..][k]) {
        assert signatures[k + 1] == signatures[1..][k];
      }
    }
  }

  lemma {:induction false} FirstFailureIsLast(results: seq<RunResult>)
    requires results != [] && !Succeeded(results[|results| - 1])
    requires forall i :: 0 <= i < |results| - 1 ==> Succeeded(results[i])
    ensures FirstFailure(results) == Some(results[|results| - 1])
  {
    if |results| > 1 {
      FirstFailureIsLast(results[1..]);
    }
  }

  /** The three verdicts on a run: pass when every command ran and succeeded; otherwise blocked exactly when
      the command it ended at failed because of the rig, failed when it did not. */
  lemma VerdictIsTheLastCommands(commands: seq<string>, results: seq<RunResult>)
    requires IsRunOf(commands, results)
    ensures var e := Verdict(commands, results);
            && (e.VerifyPassed? <==>
                  |results| == |commands| && forall i :: 0 <= i < |results| ==> ExitedWell(results[i]))
            && (e.VerifyBlocked? <==> !e.VerifyPassed? && results != [] && IsRigFailure(results[|results| - 1]))
            && (e.VerifyFailed? <==> !e.VerifyPassed? && results != [] && !IsRigFailure(results[|results| - 1]))
            && (e.VerifyFailed? ==> e.note == NoteText(commands, results))
            && (e.VerifyBlocked? ==>
                  exists detail :: SaysRigFailure(results[|results| - 1], detail)
                                   && e.note == detail + "\n" + NoteText(commands, results))
  {
    hide NoteText, FirstFailure, Environmental, IsRigFailure, SaysRigFailure;
    PassedIffEveryCommandSucceeded(commands, results);
    assert forall r :: Succeeded(r) <==> ExitedWell(r);
    if !Passed(commands, results) {
      FirstFailureIsLast(results);
      EnvironmentalIff(results, results[|results| - 1]);
    }
  }

  /** `Aborted` when the Verifier's configuration cannot be read or its checkout not made or not removed. */
  datatype Outcome = Reported(event: T.Event) | NotAwaiting | CouldNot(failure: Failure) | Aborted

  /** Whether the configuration can be read and the checkout made, and whether the checkout can be removed. */
  datatype Rig = Rig(checksOut: bool, removes: bool)

  /** Verify one task: nothing unless it is `InVerify`; otherwise every command, prepare steps first,
      runs on the submitted head until one fails, and the verdict on that run is applied. Trouble with the
      checkout, before the run or after it, applies no verdict. */
  method VerifyOne(store: BeadStore, runner: Runner, meta: VerifyMeta, prepare: seq<string>, rig: Rig)
      returns (outcome: Outcome, ghost results: seq<RunResult>)
    requires store.Valid()
    modifies store, runner
    ensures store.Valid()
    ensures var s := old(store.View());
            var commands := prepare + meta.commands;
            if !s.IsTask(meta.task) || !s.StateOf(meta.task).InVerify?
            then store.View() == s && store.writesAllowed == old(store.writesAllowed) && runner.log == old(runner.log)
            else if outcome.Aborted?
            then
              && store.View() == s && store.writesAllowed == old(store.writesAllowed)
              && (runner.log == old(runner.log)
                  || (IsRunOf(commands, results)
                      && runner.log == old(runner.log) + Calls(s.StateOf(meta.task).head, commands, results)))
            else
              && IsRunOf(commands, results)
              && runner.log == old(runner.log) + Calls(s.StateOf(meta.task).head, commands, results)
              && Transition.Applied(s, meta.task, Verdict(commands, results), old(store.writesAllowed))
                 == Ran(store.View(), store.writesAllowed,
                        if outcome.CouldNot? then Ended.Failed(outcome.failure) else Done)
              && (outcome.Reported? ==> outcome.event == Verdict(commands, results))
    ensures outcome.NotAwaiting? <==>
              old(store.View()).IsTask(meta.task) && !old(store.View()).StateOf(meta.task).InVerify?
    ensures !old(store.View()).IsTask(meta.task) ==> outcome.CouldNot?
    ensures var s := old(store.View());
            outcome.Aborted? <==>
              s.IsTask(meta.task) && s.StateOf(meta.task).InVerify? && !(rig.checksOut && rig.removes)
    ensures outcome.Aborted? && !rig.checksOut ==> runner.log == old(runner.log)
  {
    results := [];
    var task, failure := Transition.LoadTask(store, meta.task);
    if task.None? {
      return CouldNot(failure), [];
    }
    if !task.value.state.InVerify? {
      return NotAwaiting, [];
    }
    if !rig.checksOut {
      return Aborted, [];
    }
    var commands := prepare + meta.commands;
    var ran := RunAll(runner, task.value.state.head, commands);
    results := ran;
    if !rig.removes {
      return Aborted, ran;
    }
    var passed, note := Summarize(commands, ran);
    var blocked := Environmental(ran);
    var event :=
      if passed then T.VerifyPassed
      else if blocked.Some? then T.VerifyBlocked(blocked.value + "\n" + note)
      else T.VerifyFailed(note);
    var ended, now := Transition.ApplyEvent(store, meta.task, event);
    outcome := if ended.Failed? then CouldNot(ended.failure) else Reported(event);
  }
}

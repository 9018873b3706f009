// The notes of a bead read back into segments: verify blocks, operator lines, plain text.
module Notes {
  import opened Text
  import opened Ledger

  datatype VerifyLine = VerifyLine(command: string, status: string, tail: string)

  datatype Segment =
    | VerifyBlock(passed: bool, commands: seq<VerifyLine>)
    | Guidance(text: string)
    | Released(text: string)
    | OperatorLine(text: string)
    | PlainText(text: string)

  predicate IsHeading(line: string) {
    StartsWith(line, "verify PASSED") || StartsWith(line, "verify FAILED")
  }

  predicate IsOperator(line: string) {
    || StartsWith(line, "resume-from: ")
    || StartsWith(line, "operator: ")
    || StartsWith(line, "incident resolved by operator:")
  }

  predicate IsMarker(line: string) {
    IsHeading(line) || StartsWith(line, "guidance: ") || StartsWith(line, "released: ") || IsOperator(line)
  }

  predicate IsCommand(line: string) {
    StartsWith(line, "$ ")
  }

  predicate Blank(s: string) {
    Trim(s) == ""
  }

  function Flush(plain: seq<string>): seq<Segment> {
    var text := Trim(Join(plain));
    if text == "" then [] else [PlainText(text)]
  }

  /** `[status]` at the head of the lines, if it is there. */
  function StatusOf(lines: seq<string>): Option<string> {
    if lines != [] && |lines[0]| >= 2 && lines[0][0] == '[' && lines[0][|lines[0]| - 1] == ']'
    then Some(lines[0][1..|lines[0]| - 1]) else None
  }

  /** How many lines of output come before the next command or marker. */
  function TailLength(lines: seq<string>): (n: nat)
    ensures n <= |lines|
  {
    if lines == [] || IsCommand(lines[0]) || IsMarker(lines[0]) then 0 else 1 + TailLength(lines[1..])
  }

  datatype Read = Read(commands: seq<VerifyLine>, rest: seq<string>)

  function WithFirst(line: VerifyLine, r: Read): Read {
    Read([line] + r.commands, r.rest)
  }

  /** The lines after a command line: its status if it has one, its output, where the next record begins. */
  function RecordOf(command: string, lines: seq<string>): (r: (VerifyLine, seq<string>))
    ensures |r.1| <= |lines|
  {
    var status := StatusOf(lines);
    var body := if status.Some? then lines[1..] else lines;
    var n := TailLength(body);
    (VerifyLine(command, if status.Some? then status.value else "", Trim(Join(body[..n]))), body[n..])
  }

  /** The command records of a verify block, and the lines after it. */
  function Records(lines: seq<string>): (r: Read)
    ensures |r.rest| <= |lines|
    decreases |lines|
  {
    if lines == [] then Read([], [])
    else if IsCommand(lines[0]) then
      var (line, rest) := RecordOf(lines[0][2..], lines[1..]);
      WithFirst(line, Records(rest))
    else if Blank(lines[0]) then Records(lines[1..])
    else Read([], lines)
  }

  /** The segments of `lines`, with `plain` waiting to be flushed. */
  function Segments(lines: seq<string>, plain: seq<string>): seq<Segment>
    decreases |lines|
  {
    if lines == [] then Flush(plain)
    else
      var line := lines[0];
      if IsHeading(line) then
        var read := Records(lines[1..]);
        Flush(plain) + [VerifyBlock(StartsWith(line, "verify PASSED"), read.commands)] + Segments(read.rest, [])
      else if StartsWith(line, "guidance: ") then
        Flush(plain) + [Guidance(line[|"guidance: "|..])] + Segments(lines[1..], [])
      else if StartsWith(line, "released: ") then
        Flush(plain) + [Released(line[|"released: "|..])] + Segments(lines[1..], [])
      else if IsOperator(line) then
        Flush(plain) + [OperatorLine(line)] + Segments(lines[1..], [])
      else Segments(lines[1..], plain + [line])
  }

  function Parse(notes: string): seq<Segment> {
    Segments(Lines(notes), [])
  }

  // ---- the parser ---------------------------------------------------------------------------------------------------

  /** The lines up to the next command or marker. */
  method ReadTail(lines: seq<string>, start: nat) returns (tail: seq<string>, next: nat)
    requires start <= |lines|
    ensures next == start + TailLength(lines[start..]) && tail == lines[start..next]
  {
    hide IsMarker, IsCommand;
    tail, next := [], start;
    while next < |lines| && !IsCommand(lines[next]) && !IsMarker(lines[next])
      invariant start <= next <= |lines| && tail == lines[start..next]
      invariant TailLength(lines[start..]) == next - start + TailLength(lines[next..])
    {
      assert lines[next..][1..] == lines[next + 1..];
      tail := tail + [lines[next]];
      next := next + 1;
    }
  }

  method ReadRecord(lines: seq<string>, from: nat) returns (line: VerifyLine, next: nat)
    requires from < |lines| && IsCommand(lines[from])
    ensures from < next <= |lines|
    ensures (line, lines[next..]) == RecordOf(lines[from][2..], lines[from + 1..])
  {
    hide IsMarker, Trim, Join, TailLength;
    ghost var after := lines[from + 1..];
    next := from + 1;
    var status: Option<string> := None;
    if next < |lines| && |lines[next]| >= 2 && lines[next][0] == '[' && lines[next][|lines[next]| - 1] == ']' {
      status := Some(lines[next][1..|lines[next]| - 1]);
      next := next + 1;
      assert after[1..] == lines[next..];
    }
    assert status == StatusOf(after);
    var start, tail := next, [];
    tail, next := ReadTail(lines, start);
    ghost var body := lines[start..];
    assert body[..next - start] == tail && body[next - start..] == lines[next..];
    line := VerifyLine(lines[from][2..], if status.Some? then status.value else "", Trim(Join(tail)));
  }

  method ReadRecords(lines: seq<string>, from: nat) returns (commands: seq<VerifyLine>, next: nat)
    requires from <= |lines|
    ensures from <= next <= |lines| && Read(commands, lines[next..]) == Records(lines[from..])
  {
    commands, next := [], from;
    while next < |lines|
      invariant from <= next <= |lines|
      invariant Records(lines[from..]) == Read(commands + Records(lines[next..]).commands, Records(lines[next..]).rest)
    {
      hide RecordOf, Blank, IsCommand;
      assert lines[next..][1..] == lines[next + 1..] && lines[next..][0] == lines[next];
      if IsCommand(lines[next]) {
        var line;
        ghost var was := next;
        line, next := ReadRecord(lines, next);
        assert Records(lines[was..]) == WithFirst(line, Records(lines[next..]));
        assert commands + ([line] + Records(lines[next..]).commands)
             == commands + [line] + Records(lines[next..]).commands;
        commands := commands + [line];
      } else if Blank(lines[next]) {
        next := next + 1;
      } else {
        break;
      }
    }
    assert commands + [] == commands;
  }

  lemma Regroup(out: seq<Segment>, flushed: seq<Segment>, segment: Segment, rest: seq<Segment>)
    ensures out + (flushed + [segment] + rest) == (out + flushed + [segment]) + rest
  {
  }

  method ParseNotes(notes: string) returns (out: seq<Segment>)
    ensures out == Parse(notes)
  {
    var lines := Lines(notes);
    out := [];
    var plain: seq<string> := [];
    var i := 0;
    assert lines[0..] == lines;
    while i < |lines|
      invariant 0 <= i <= |lines|
      invariant out + Segments(lines[i..], plain) == Parse(notes)
      decreases |lines| - i
    {
      hide Flush, Records, IsHeading, IsOperator, StartsWith;
      var line := lines[i];
      assert lines[i..][1..] == lines[i + 1..] && lines[i..][0] == line;
      if IsHeading(line) {
        var commands, next := ReadRecords(lines, i + 1);
        Regroup(out, Flush(plain), VerifyBlock(StartsWith(line, "verify PASSED"), commands),
                Segments(lines[next..], []));
        out, plain := out + Flush(plain) + [VerifyBlock(StartsWith(line, "verify PASSED"), commands)], [];
        i := next;
      } else if StartsWith(line, "guidance: ") {
        Regroup(out, Flush(plain), Guidance(line[|"guidance: "|..]), Segments(lines[i + 1..], []));
        out, plain := out + Flush(plain) + [Guidance(line[|"guidance: "|..])], [];
        i := i + 1;
      } else if StartsWith(line, "released: ") {
        Regroup(out, Flush(plain), Released(line[|"released: "|..]), Segments(lines[i + 1..], []));
        out, plain := out + Flush(plain) + [Released(line[|"released: "|..])], [];
        i := i + 1;
      } else if IsOperator(line) {
        Regroup(out, Flush(plain), OperatorLine(line), Segments(lines[i + 1..], []));
        out, plain := out + Flush(plain) + [OperatorLine(line)], [];
        i := i + 1;
      } else {
        plain := plain + [line];
        i := i + 1;
      }
    }
    out := out + Flush(plain);
  }
}

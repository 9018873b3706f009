// What reading notes back guarantees: notes appended after each other read as the segments of each, and a
// printed verify note reads back as the run it was printed from.
module NotesLaws {
  import opened Text
  import opened Ledger
  import opened Notes
  import V = Verifier

  // ---- lines of appended text --------------------------------------------------------------------------------------

  lemma {:induction false} NewlineAfter(x: string, y: string)
    requires '\n' !in x
    ensures NewlineAt(x) == |x| && NewlineAt(x + "\n" + y) == |x|
  {
    if x != "" {
      assert (x + "\n" + y)[1..] == x[1..] + "\n" + y;
      NewlineAfter(x[1..], y);
    }
  }

  /** A line, its newline, and the rest. */
  lemma LinesCons(x: string, y: string)
    requires '\n' !in x
    ensures Lines(x + "\n" + y) == [StripCr(x)] + Lines(y)
    ensures Lines(x) == if x == "" then [] else [x]
  {
    NewlineAfter(x, y);
    var s := x + "\n" + y;
    assert s[..|x|] == x && s[|x| + 1..] == y;
  }

  /** An empty line when `x` ended its last line, nothing otherwise. */
  function Seam(x: string): seq<string> {
    if x == "" || x[|x| - 1] == '\n' then [""] else []
  }

  /** Text after a newline: the lines of both, where a carriage return now directly before the newline is
      dropped and an empty or finished first part leaves an empty line. */
  lemma {:induction false} LinesAppend(x: string, y: string)
    ensures Lines(x + "\n" + y) == Lines(StripCr(x)) + Seam(StripCr(x)) + Lines(y)
    decreases |x|
  {
    hide Lines, StripCr, Seam;
    var i := NewlineAt(x);
    if i == |x| {
      StripCrKeepsLine(x);
      LinesCons(x, y);
      LinesCons(StripCr(x), y);
    } else {
      var first, rest := x[..i], x[i + 1..];
      assert x == first + "\n" + rest && x + "\n" + y == first + "\n" + (rest + "\n" + y);
      LinesCons(first, rest + "\n" + y);
      LinesAppend(rest, y);
      StripCrOfRest(first, rest);
      LinesCons(first, StripCr(rest));
    }
  }

  lemma StripCrKeepsLine(x: string)
    requires '\n' !in x
    ensures '\n' !in StripCr(x)
    ensures [StripCr(x)] == Lines(StripCr(x)) + Seam(StripCr(x))
  {
    LinesCons(StripCr(x), "");
  }

  lemma StripCrOfRest(first: string, rest: string)
    ensures StripCr(first + "\n" + rest) == first + "\n" + StripCr(rest)
    ensures Seam(StripCr(first + "\n" + rest)) == Seam(StripCr(rest))
  {
    var x := first + "\n" + rest;
    if rest != "" {
      assert x[|x| - 1] == rest[|rest| - 1];
      assert rest[|rest| - 1] == '\r' ==> x[..|x| - 1] == first + "\n" + rest[..|rest| - 1];
    }
  }

  // ---- trimming -----------------------------------------------------------------------------------------------------

  lemma {:induction false} TrimEndSpace(s: string, c: char)
    requires IsSpace(c)
    ensures TrimEnd(s + [c]) == TrimEnd(s)
  {
    assert (s + [c])[..|s|] == s;
  }

  lemma {:induction false} TrimStartSpace(s: string, c: char)
    requires IsSpace(c)
    ensures TrimStart(s + [c]) == if TrimStart(s) == "" then "" else TrimStart(s) + [c]
  {
    if s == "" {
      assert s + [c] == [c] && [c][1..] == "";
    } else if IsSpace(s[0]) {
      assert (s + [c])[1..] == s[1..] + [c];
      TrimStartSpace(s[1..], c);
    }
  }

  lemma TrimSpace(s: string, c: char)
    requires IsSpace(c)
    ensures Trim(s + [c]) == Trim(s)
  {
    TrimStartSpace(s, c);
    TrimEndSpace(TrimStart(s), c);
  }

  lemma {:induction false} JoinSnoc(lines: seq<string>, line: string)
    ensures Join(lines + [line]) == if lines == [] then line else Join(lines) + "\n" + line
    decreases |lines|
  {
    if lines == [] {
      assert lines + [line] == [line];
    } else {
      assert (lines + [line])[1..] == lines[1..] + [line];
      JoinSnoc(lines[1..], line);
      if |lines| > 1 {
        assert Join(lines) + "\n" + line == lines[0] + "\n" + (Join(lines[1..]) + "\n" + line);
      }
    }
  }

  /** An empty last line is trimmed away. */
  lemma EmptyLastLine(lines: seq<string>)
    ensures Trim(Join(lines + [""])) == Trim(Join(lines))
  {
    JoinSnoc(lines, "");
    if lines != [] {
      assert Join(lines) + "\n" + "" == Join(lines) + ['\n'];
      TrimSpace(Join(lines), '\n');
    }
  }

  // ---- appended notes -----------------------------------------------------------------------------------------------

  /** Nothing, or one empty line. */
  predicate IsSeam(seam: seq<string>) {
    seam == [] || seam == [""]
  }

  /** The lines of a later note: none, or starting with a marker. */
  predicate StartsWithMarker(later: seq<string>) {
    later != [] && IsMarker(later[0])
  }

  lemma MarkersAreNoCommands(line: string)
    ensures IsMarker(line) ==> !IsCommand(line) && !Blank(line) && line != "" && line[0] != '['
    ensures IsCommand(line) ==> line != "" && line[0] != '['
    ensures !IsMarker("") && !IsCommand("") && Blank("")
  {
    if IsMarker(line) {
      var c := line[0];
      assert c in "vgroi";
      NotBlank(line);
    }
  }

  lemma NotBlank(s: string)
    requires s != "" && !IsSpace(s[0])
    ensures !Blank(s)
  {
    StaysUntrimmed(s);
  }

  lemma {:induction false} StaysUntrimmed(s: string)
    requires s != "" && !IsSpace(s[0])
    ensures TrimEnd(s) != ""
  {
    if |s| > 1 && IsSpace(s[|s| - 1]) {
      StaysUntrimmed(s[..|s| - 1]);
    }
  }

  /** Lines no output runs into: none, or starting with a marker or a command. */
  predicate StopsTail(later: seq<string>) {
    later == [] || IsMarker(later[0]) || IsCommand(later[0])
  }

  /** Output lines end at the seam. */
  lemma {:induction false} TailEndsAtSeam(lines: seq<string>, seam: seq<string>, later: seq<string>)
    requires IsSeam(seam) && StopsTail(later)
    ensures TailLength(lines + seam + later) == TailLength(lines) + if TailLength(lines) == |lines| then |seam| else 0
    decreases |lines|
  {
    hide IsMarker, IsCommand, Blank;
    MarkersAreNoCommands("");
    var all := lines + seam + later;
    if later != [] { MarkersAreNoCommands(later[0]); }
    if lines == [] {
      assert all == seam + later;
      if seam == [""] { assert all[1..] == later; }
    } else {
      assert all[1..] == lines[1..] + seam + later;
      TailEndsAtSeam(lines[1..], seam, later);
    }
  }

  /** A record at the end of a note takes the seam with it, one before the end does not see it. */
  lemma RecordBeforeSeam(command: string, lines: seq<string>, seam: seq<string>, later: seq<string>)
    requires IsSeam(seam) && StopsTail(later)
    ensures var r := RecordOf(command, lines);
            RecordOf(command, lines + seam + later) == (r.0, if r.1 == [] then later else r.1 + seam + later)
  {
    hide IsMarker, IsCommand, Blank, Trim, Join, TailLength;
    var all := lines + seam + later;
    if later != [] { MarkersAreNoCommands(later[0]); }
    assert StatusOf(all) == StatusOf(lines) by {
      if lines != [] { assert all[0] == lines[0]; }
    }
    var body := if StatusOf(lines).Some? then lines[1..] else lines;
    assert (if StatusOf(lines).Some? then all[1..] else all) == body + seam + later;
    TailEndsAtSeam(body, seam, later);
    if TailLength(body) == |body| {
      WholeBody(body, seam, later);
    } else {
      PartOfBody(body, seam, later, TailLength(body));
    }
  }

  lemma WholeBody(body: seq<string>, seam: seq<string>, later: seq<string>)
    requires IsSeam(seam)
    ensures var whole, m := body + seam + later, |body| + |seam|;
            Trim(Join(whole[..m])) == Trim(Join(body[..|body|])) && whole[m..] == later && body[|body|..] == []
  {
    hide Trim, Join;
    Slices(body, seam, later);
    assert body[..|body|] == body;
    if seam == [""] {
      EmptyLastLine(body);
    } else {
      assert body + seam == body;
    }
  }

  lemma PartOfBody(body: seq<string>, seam: seq<string>, later: seq<string>, n: nat)
    requires n < |body|
    ensures var whole := body + seam + later;
            whole[..n] == body[..n] && whole[n..] == body[n..] + seam + later && body[n..] != []
  {
  }

  lemma Slices(a: seq<string>, b: seq<string>, c: seq<string>)
    ensures (a + b + c)[..|a| + |b|] == a + b && (a + b + c)[|a| + |b|..] == c
  {
  }

  lemma CommandLength(line: string)
    requires IsCommand(line)
    ensures |line| >= 2
  {
  }

  lemma {:induction false} RecordsBeforeSeam(lines: seq<string>, seam: seq<string>, later: seq<string>)
    requires IsSeam(seam) && (later == [] || StartsWithMarker(later))
    ensures var r := Records(lines);
            Records(lines + seam + later) == Read(r.commands, if r.rest == [] then later else r.rest + seam + later)
    decreases |lines|
  {
    hide IsMarker, IsCommand, Blank, RecordOf;
    var all := lines + seam + later;
    MarkersAreNoCommands("");
    if later != [] { MarkersAreNoCommands(later[0]); }
    if lines == [] {
      assert all == seam + later;
      if seam == [""] { assert all[1..] == later; }
    } else {
      assert all[1..] == lines[1..] + seam + later && all[0] == lines[0];
      if IsCommand(lines[0]) {
        CommandLength(lines[0]);
        RecordBeforeSeam(lines[0][2..], lines[1..], seam, later);
        var (line, rest) := RecordOf(lines[0][2..], lines[1..]);
        RecordsBeforeSeam(rest, seam, later);
        if rest == [] && later != [] {
          assert Records(later) == Read([], later);
        }
      } else if Blank(lines[0]) {
        RecordsBeforeSeam(lines[1..], seam, later);
      }
    }
  }

  lemma FlushNothing()
    ensures Flush([]) == []
  {
  }

  /** A marker flushes what waits. */
  lemma MarkerFlushes(later: seq<string>, plain: seq<string>)
    requires StartsWithMarker(later)
    ensures Segments(later, plain) == Flush(plain) + Segments(later, [])
  {
    hide Flush, Records;
    FlushNothing();
  }

  lemma SeamFlushes(seam: seq<string>, later: seq<string>, plain: seq<string>)
    requires IsSeam(seam) && (later == [] || StartsWithMarker(later))
    ensures Segments(seam + later, plain) == Flush(plain) + Segments(later, [])
  {
    hide Records, Trim, Join, IsMarker, Segments;
    EmptyLastLine(plain);
    FlushNothing();
    if seam == [""] {
      MarkersAreNoCommands("");
      EmptyLineWaits(later, plain);
      if later == [] {
        NothingLeft(plain + [""]);
        NothingLeft([]);
      } else {
        MarkerFlushes(later, plain + [""]);
      }
    } else {
      assert seam + later == later;
      if later == [] {
        NothingLeft(plain);
        NothingLeft([]);
      } else {
        MarkerFlushes(later, plain);
      }
    }
  }

  lemma EmptyLineWaits(later: seq<string>, plain: seq<string>)
    ensures Segments([""] + later, plain) == Segments(later, plain + [""])
  {
    assert ([""] + later)[1..] == later;
  }

  lemma NothingLeft(plain: seq<string>)
    ensures Segments([], plain) == Flush(plain)
  {
  }

  lemma {:induction false} SegmentsBeforeSeam(lines: seq<string>, plain: seq<string>, seam: seq<string>,
                                              later: seq<string>)
    requires IsSeam(seam) && (later == [] || StartsWithMarker(later))
    ensures Segments(lines + seam + later, plain) == Segments(lines, plain) + Segments(later, [])
    decreases |lines|
  {
    hide IsHeading, IsOperator, IsMarker, Flush, Records;
    var all := lines + seam + later;
    if lines == [] {
      assert all == seam + later;
      SeamFlushes(seam, later, plain);
    } else {
      var line := lines[0];
      assert all[1..] == lines[1..] + seam + later && all[0] == line;
      if IsHeading(line) {
        RecordsBeforeSeam(lines[1..], seam, later);
        var read := Records(lines[1..]);
        if read.rest == [] {
          NothingLeft([]);
          FlushNothing();
        } else {
          SegmentsBeforeSeam(read.rest, [], seam, later);
        }
      } else if StartsWith(line, "guidance: ") || StartsWith(line, "released: ") || IsOperator(line) {
        SegmentsBeforeSeam(lines[1..], [], seam, later);
      } else {
        SegmentsBeforeSeam(lines[1..], plain + [line], seam, later);
      }
    }
  }

  /** Notes appended with a newline, the later one starting with a marker line: the segments of the earlier
      notes, as they read in front of a newline, then those of the later. */
  lemma AppendedNotes(earlier: string, later: string)
    requires StartsWithMarker(Lines(later))
    ensures Parse(earlier + "\n" + later) == Parse(StripCr(earlier)) + Parse(later)
  {
    hide Segments, Lines, IsMarker;
    LinesAppend(earlier, later);
    SegmentsBeforeSeam(Lines(StripCr(earlier)), [], Seam(StripCr(earlier)), Lines(later));
  }

  /** So parsing an append is parsing both parts whenever the earlier part ends in no carriage return. */
  lemma AppendedNotesWithoutCr(earlier: string, later: string)
    requires StartsWithMarker(Lines(later)) && (earlier == "" || earlier[|earlier| - 1] != '\r')
    ensures Parse(earlier + "\n" + later) == Parse(earlier) + Parse(later)
  {
    AppendedNotes(earlier, later);
  }

  /** With one it may not be: the carriage return of a guidance line is lost when a note follows. */
  lemma CarriageReturnIsLost()
    ensures var earlier, later := "guidance: " + "x\r", "released: " + "y";
            Parse(earlier + "\n" + later) != Parse(earlier) + Parse(later)
  {
    hide Segments, Lines, IsMarker;
    var earlier, later := "guidance: " + "x\r", "released: " + "y";
    LinesCons(earlier, "");
    LinesCons("guidance: " + "x", "");
    LinesCons(later, "");
    assert StartsWithMarker([later]) by { ReleasedIsMarker("y"); }
    AppendedNotes(earlier, later);
    OneGuidance("x");
    OneGuidance("x\r");
    assert StripCr(earlier) == "guidance: " + "x";
    assert Parse(StripCr(earlier)) == [Guidance("x")] && Parse(earlier) == [Guidance("x\r")];
    assert Parse(earlier + "\n" + later)[0] == Guidance("x");
    assert (Parse(earlier) + Parse(later))[0] == Guidance("x\r");
  }

  lemma ReleasedIsMarker(text: string)
    ensures IsMarker("released: " + text)
  {
  }

  lemma OneGuidance(text: string)
    ensures Segments(["guidance: " + text], []) == [Guidance(text)]
  {
    var line := "guidance: " + text;
    FlushNothing();
    assert line[|"guidance: "|..] == text;
    var rest: seq<string> := [line][1..];
    assert rest == [];
    assert line[0] == 'g';
  }

  // ---- other notes read back ----------------------------------------------------------------------------------------

  /** A line with its marker reads back as what follows the marker; an operator's line as it is. */
  lemma MarkedLineReadsBack(text: string)
    requires '\n' !in text
    ensures Parse("guidance: " + text) == [Guidance(text)]
    ensures Parse("released: " + text) == [Released(text)]
    ensures Parse("resume-from: " + text) == [OperatorLine("resume-from: " + text)]
    ensures Parse("operator: " + text) == [OperatorLine("operator: " + text)]
    ensures Parse("incident resolved by operator:" + text) == [OperatorLine("incident resolved by operator:" + text)]
  {
    OneLineIsItself("guidance: " + text);
    OneLineIsItself("released: " + text);
    OneLineIsItself("resume-from: " + text);
    OneLineIsItself("operator: " + text);
    OneLineIsItself("incident resolved by operator:" + text);
    OneGuidance(text);
    OneReleased(text);
    OneOperator("resume-from: ", text);
    OneOperator("operator: ", text);
    OneOperator("incident resolved by operator:", text);
  }

  lemma OneLineIsItself(line: string)
    requires '\n' !in line && line != ""
    ensures Lines(line) == [line]
  {
    assert forall k :: 0 <= k < |line| ==> line[k] in line;
    assert NewlineAt(line) == |line|;
  }

  lemma OneReleased(text: string)
    ensures Segments(["released: " + text], []) == [Released(text)]
  {
    var line := "released: " + text;
    FlushNothing();
    assert line[|"released: "|..] == text;
    var rest: seq<string> := [line][1..];
    assert rest == [] && line[0] == 'r';
  }

  lemma OneOperator(prefix: string, text: string)
    requires prefix == "resume-from: " || prefix == "operator: " || prefix == "incident resolved by operator:"
    ensures Segments([prefix + text], []) == [OperatorLine(prefix + text)]
  {
    hide IsHeading, IsOperator, Flush, StartsWith;
    var line := prefix + text;
    FlushNothing();
    StartsWithPrefix(prefix, text);
    assert line[0] == prefix[0] && line[2] == prefix[2];
    OperatorIsNoOther(line);
    var rest: seq<string> := [line][1..];
    assert rest == [];
  }

  lemma StartsWithPrefix(prefix: string, text: string)
    requires prefix == "resume-from: " || prefix == "operator: " || prefix == "incident resolved by operator:"
    ensures IsOperator(prefix + text)
  {
    assert prefix <= prefix + text;
  }

  lemma OperatorIsNoOther(line: string)
    requires |line| > 2 && ((line[0] == 'r' && line[2] == 's') || line[0] == 'o' || line[0] == 'i')
    ensures !IsHeading(line) && !StartsWith(line, "guidance: ") && !StartsWith(line, "released: ")
  {
  }

  /** The line begins with none of the markers. */
  predicate IsPlain(line: string) {
    && !("verify PASSED" <= line) && !("verify FAILED" <= line)
    && !("guidance: " <= line) && !("released: " <= line)
    && !("resume-from: " <= line) && !("operator: " <= line) && !("incident resolved by operator:" <= line)
  }

  /** Text none of whose lines begins with a marker is one piece of plain text, trimmed, if it is not blank. */
  lemma PlainTextReadsBack(notes: string)
    requires forall i :: 0 <= i < |Lines(notes)| ==> IsPlain(Lines(notes)[i])
    ensures Parse(notes) == if Trim(Join(Lines(notes))) == "" then [] else [PlainText(Trim(Join(Lines(notes))))]
  {
    hide Trim, Join, Lines;
    PlainWaits(Lines(notes), []);
    assert [] + Lines(notes) == Lines(notes);
  }

  lemma {:induction false} PlainWaits(lines: seq<string>, plain: seq<string>)
    requires forall i :: 0 <= i < |lines| ==> IsPlain(lines[i])
    ensures Segments(lines, plain) == Flush(plain + lines)
    decreases |lines|
  {
    hide Flush;
    if lines == [] {
      assert plain + lines == plain;
    } else {
      PlainWaits(lines[1..], plain + [lines[0]]);
      assert plain + [lines[0]] + lines[1..] == plain + lines;
    }
  }

  // ---- a printed verify note reads back -----------------------------------------------------------------------------

  predicate OneLine(s: string) {
    '\n' !in s && '\r' !in s
  }

  /** Output without carriage returns in which no line looks like a command or a marker. */
  predicate CleanOutput(s: string) {
    '\r' !in s && forall i :: 0 <= i < |Lines(s)| ==> !IsCommand(Lines(s)[i]) && !IsMarker(Lines(s)[i])
  }

  predicate CleanResult(r: V.RunResult) {
    match r
    case Exited(o) => CleanOutput(V.OutputText(o))
    case NotSpawned(error) => '\n' !in error
  }

  /** The commands that ran are single lines, and what they printed, as far as the note keeps it, is clean. */
  predicate Printable(commands: seq<string>, results: seq<V.RunResult>)
    requires |results| <= |commands|
  {
    forall i :: 0 <= i < |results| ==> OneLine(commands[i]) && CleanResult(results[i])
  }

  /** What a reader should see of one command. */
  function ReadBack(command: string, r: V.RunResult): VerifyLine {
    match r
    case Exited(o) => VerifyLine(command, V.StatusText(o), Trim(V.OutputText(o)))
    case NotSpawned(error) => VerifyLine(command, "could not run: " + error, "")
  }

  function AllReadBack(commands: seq<string>, results: seq<V.RunResult>): seq<VerifyLine>
    requires |results| <= |commands|
  {
    seq(|results|, i requires 0 <= i < |results| => ReadBack(commands[i], results[i]))
  }

  /** The bracketed line of an entry. */
  function StatusLine(r: V.RunResult): string {
    match r
    case Exited(o) => V.StatusText(o)
    case NotSpawned(error) => "could not run: " + error
  }

  /** Everything after an entry's first newline, and the entries after it. */
  function EntriesText(commands: seq<string>, results: seq<V.RunResult>): string
    requires 0 < |results| <= |commands|
  {
    V.Entries(commands, results)[1..]
  }

  lemma {:induction false} DecimalIsOneLine(n: nat)
    ensures OneLine(DecimalNat(n))
  {
    if n >= 10 {
      DecimalIsOneLine(n / 10);
    }
  }

  lemma StatusIsOneLine(r: V.RunResult)
    requires CleanResult(r)
    ensures '\n' !in StatusLine(r)
  {
    if r.Exited? && r.output.exitCode.Some? {
      DecimalIsOneLine(if r.output.exitCode.value < 0 then -r.output.exitCode.value else r.output.exitCode.value);
    }
  }

  /** Joining the lines of a text without carriage returns gives the text up to a final newline. */
  lemma {:induction false} JoinLines(s: string)
    requires '\r' !in s
    ensures Join(Lines(s)) == s || Join(Lines(s)) + "\n" == s
    ensures Trim(Join(Lines(s))) == Trim(s)
  {
    hide Lines, Trim;
    var i := NewlineAt(s);
    if i == |s| {
      LinesCons(s, "");
    } else {
      var first, rest := s[..i], s[i + 1..];
      assert s == first + "\n" + rest && StripCr(first) == first;
      LinesCons(first, rest);
      JoinLines(rest);
      LinesOfNothing(rest);
      JoinFirst(first, Lines(rest));
    }
    if Join(Lines(s)) + "\n" == s {
      TrimSpace(Join(Lines(s)), '\n');
    }
  }

  lemma JoinFirst(line: string, lines: seq<string>)
    ensures Join([line] + lines) == if lines == [] then line else line + "\n" + Join(lines)
  {
    assert ([line] + lines)[1..] == lines;
  }

  lemma LinesOfNothing(s: string)
    ensures Lines(s) == [] <==> s == ""
  {
  }

  lemma {:induction false} AllTail(lines: seq<string>)
    requires forall i :: 0 <= i < |lines| ==> !IsCommand(lines[i]) && !IsMarker(lines[i])
    ensures TailLength(lines) == |lines|
  {
    hide IsCommand, IsMarker;
    if lines != [] {
      AllTail(lines[1..]);
    }
  }

  /** The output an entry holds after its bracketed line. */
  function Output(r: V.RunResult): string {
    if r.Exited? then V.OutputText(r.output) else ""
  }

  /** The lines of an entry alone: status and output. */
  lemma RecordOfEntry(command: string, r: V.RunResult)
    requires CleanResult(r)
    ensures RecordOf(command, ["[" + StatusLine(r) + "]"] + Lines(Output(r))) == (ReadBack(command, r), [])
  {
    hide IsCommand, IsMarker, V.OutputText, V.StatusText, Trim, Lines, TailLength, Join;
    var status, out := "[" + StatusLine(r) + "]", Lines(Output(r));
    var lines := [status] + out;
    assert lines[1..] == out && status[1..|status| - 1] == StatusLine(r);
    OutputIsTail(r);
    assert out[..|out|] == out && out[|out|..] == [];
    JoinLines(Output(r));
    TrimNothing();
  }

  lemma OutputIsTail(r: V.RunResult)
    requires CleanResult(r)
    ensures TailLength(Lines(Output(r))) == |Lines(Output(r))|
  {
    hide IsCommand, IsMarker, V.OutputText;
    AllTail(Lines(Output(r)));
  }

  /** The lines after a command line: status, output, and whatever follows. */
  lemma OneRecord(command: string, r: V.RunResult, seam: seq<string>, later: seq<string>)
    requires CleanResult(r) && IsSeam(seam) && StopsTail(later)
    ensures RecordOf(command, ["[" + StatusLine(r) + "]"] + Lines(Output(r)) + seam + later)
         == (ReadBack(command, r), later)
  {
    hide RecordOf, Lines, StatusLine, Output, ReadBack, IsSeam, StopsTail;
    RecordOfEntry(command, r);
    RecordBeforeSeam(command, ["[" + StatusLine(r) + "]"] + Lines(Output(r)), seam, later);
  }

  lemma TrimNothing()
    ensures Trim("") == ""
  {
  }

  /** The text of an entry after its first newline. */
  function EntryText(command: string, r: V.RunResult): string {
    "$ " + command + "\n" +
    match r
    case Exited(o) => "[" + V.StatusText(o) + "]\n" + V.OutputText(o)
    case NotSpawned(error) => "[could not run: " + error + "]"
  }

  lemma EntryShape(command: string, r: V.RunResult)
    ensures V.Entry(command, r) == "\n" + EntryText(command, r)
  {
  }

  lemma CleanLines(command: string, r: V.RunResult)
    requires OneLine(command) && CleanResult(r)
    ensures var head, status, out := "$ " + command, "[" + StatusLine(r) + "]", Output(r);
            && '\n' !in head && '\n' !in status
            && StripCr(head) == head && StripCr(status) == status && StripCr(out) == out
            && (r.Exited? ==> EntryText(command, r) == head + "\n" + (status + "\n" + out))
            && (r.NotSpawned? ==> EntryText(command, r) == head + "\n" + status && out == "")
  {
    hide V.OutputText, V.StatusText;
    StatusIsOneLine(r);
    var head := "$ " + command;
    assert head[|head| - 1] != '\r';
    if r.NotSpawned? {
      assert "[could not run: " + r.error + "]" == "[" + StatusLine(r) + "]";
    }
  }

  /** The lines of an entry. */
  lemma EntryLines(command: string, r: V.RunResult)
    requires OneLine(command) && CleanResult(r)
    ensures Lines(EntryText(command, r)) == ["$ " + command, "[" + StatusLine(r) + "]"] + Lines(Output(r))
  {
    hide Lines, CleanResult, StatusLine, Output, EntryText;
    var head, status, out := "$ " + command, "[" + StatusLine(r) + "]", Output(r);
    CleanLines(command, r);
    if r.Exited? {
      LinesCons(head, status + "\n" + out);
      LinesCons(status, out);
    } else {
      LinesCons(head, status);
      LinesCons(status, "");
      LinesCons("", "");
    }
  }

  /** The lines of an entry and of what follows on a new line. */
  lemma EntryLinesAnd(command: string, r: V.RunResult, more: string) returns (seam: seq<string>)
    requires OneLine(command) && CleanResult(r)
    ensures IsSeam(seam)
    ensures Lines(EntryText(command, r) + "\n" + more)
         == ["$ " + command] + (["[" + StatusLine(r) + "]"] + Lines(Output(r)) + seam + Lines(more))
  {
    hide Lines, CleanResult, StatusLine, Output, EntryText;
    var head, status, out := "$ " + command, "[" + StatusLine(r) + "]", Output(r);
    CleanLines(command, r);
    if r.Exited? {
      seam := Seam(out);
      assert EntryText(command, r) + "\n" + more == head + "\n" + (status + "\n" + (out + "\n" + more));
      LinesCons(head, status + "\n" + (out + "\n" + more));
      LinesCons(status, out + "\n" + more);
      LinesAppend(out, more);
      assert [status] + (Lines(out) + seam + Lines(more)) == [status] + Lines(out) + seam + Lines(more);
    } else {
      seam := [];
      assert EntryText(command, r) + "\n" + more == head + "\n" + (status + "\n" + more);
      LinesCons(head, status + "\n" + more);
      LinesCons(status, more);
      LinesCons("", "");
      assert [status] + Lines(more) == [status] + Lines(out) + seam + Lines(more);
    }
  }

  lemma {:induction false} EntriesReadBack(commands: seq<string>, results: seq<V.RunResult>)
    requires 0 < |results| <= |commands| && Printable(commands, results)
    ensures Records(Lines(EntriesText(commands, results))) == Read(AllReadBack(commands, results), [])
    ensures StopsTail(Lines(EntriesText(commands, results)))
    decreases |results|
  {
    hide V.Entry, EntryText, Lines, CleanResult, IsMarker, RecordOf, Blank, StatusLine, Output, ReadBack;
    var command, r := commands[0], results[0];
    var head, status := "$ " + command, "[" + StatusLine(r) + "]";
    var text, more := EntriesText(commands, results), V.Entries(commands[1..], results[1..]);
    EntryShape(command, r);
    assert head[2..] == command && IsCommand(head);
    assert text == EntryText(command, r) + more;
    if |results| == 1 {
      assert text == EntryText(command, r);
      EntryLines(command, r);
      assert Lines(text)[0] == head && Lines(text)[1..] == [status] + Lines(Output(r)) + [] + [];
      OneRecord(command, r, [], []);
      assert Records(Lines(text)) == WithFirst(ReadBack(command, r), Records([]));
      assert AllReadBack(commands, results) == [ReadBack(command, r)] + [];
    } else {
      var after := EntriesText(commands[1..], results[1..]);
      EntryShape(commands[1], results[1]);
      assert more == "\n" + after;
      assert text == EntryText(command, r) + "\n" + after;
      EntriesReadBack(commands[1..], results[1..]);
      var seam := EntryLinesAnd(command, r, after);
      OneRecord(command, r, seam, Lines(after));
      assert Lines(text)[0] == head && Lines(text)[1..] == [status] + Lines(Output(r)) + seam + Lines(after);
      assert Records(Lines(text)) == WithFirst(ReadBack(command, r), Records(Lines(after)));
      assert AllReadBack(commands, results) == [ReadBack(command, r)] + AllReadBack(commands[1..], results[1..]);
    }
  }

  /** A note is its heading, and on a new line its entries if there are any. */
  lemma NoteShape(commands: seq<string>, results: seq<V.RunResult>)
    requires |results| <= |commands|
    ensures var heading := V.Heading(V.Passed(commands, results));
            V.NoteText(commands, results)
            == if results == [] then heading else heading + "\n" + EntriesText(commands, results)
  {
    hide V.Entry, V.Passed, V.Heading;
    var heading := V.Heading(V.Passed(commands, results));
    if results == [] {
      assert heading + "" == heading;
    } else {
      EntryShape(commands[0], results[0]);
      assert V.Entries(commands, results) == "\n" + EntriesText(commands, results);
    }
  }

  /** A printed verify note reads back as one verify block with the same verdict, commands, statuses and
      trimmed output. */
  lemma VerifyNoteReadsBack(commands: seq<string>, results: seq<V.RunResult>)
    requires |results| <= |commands| && Printable(commands, results)
    ensures Parse(V.NoteText(commands, results))
         == [VerifyBlock(V.Passed(commands, results), AllReadBack(commands, results))]
  {
    hide V.Entry, Lines, Records, CleanResult;
    var heading := V.Heading(V.Passed(commands, results));
    FlushNothing();
    HeadingLine(V.Passed(commands, results));
    NoteShape(commands, results);
    if results == [] {
      LinesCons(heading, "");
      NoRecords();
      HeadingSegment(heading, []);
      assert [heading] + [] == [heading] && AllReadBack(commands, results) == [];
    } else {
      var text := EntriesText(commands, results);
      LinesCons(heading, text);
      EntriesReadBack(commands, results);
      HeadingSegment(heading, Lines(text));
    }
  }

  lemma HeadingLine(passed: bool)
    ensures var h := V.Heading(passed);
            h != "" && IsHeading(h) && '\n' !in h && StripCr(h) == h && (StartsWith(h, "verify PASSED") <==> passed)
    ensures IsMarker(V.Heading(passed))
  {
    var h, yes, no := V.Heading(passed), "verify PASSED", "verify FAILED";
    assert yes[7] == 'P' && no[7] == 'F' && |yes| == |no| == 13;
    assert h == if passed then yes else no;
    assert StartsWith(h, yes) ==> h[7] == yes[7];
    assert h[|h| - 1] == 'D';
    assert forall i :: 0 <= i < 13 ==> yes[i] != '\n' && no[i] != '\n';
  }

  lemma NoRecords()
    ensures Records([]) == Read([], [])
  {
  }

  lemma HeadingSegment(heading: string, lines: seq<string>)
    requires IsHeading(heading) && Records(lines).rest == []
    ensures Segments([heading] + lines, []) == [VerifyBlock(StartsWith(heading, "verify PASSED"),
                                                            Records(lines).commands)]
  {
    hide Records;
    FlushNothing();
    assert ([heading] + lines)[1..] == lines;
  }

  /** A verify note appended to earlier notes adds exactly its own block. */
  lemma VerifyNoteAppends(earlier: string, commands: seq<string>, results: seq<V.RunResult>)
    requires |results| <= |commands| && Printable(commands, results)
    ensures Parse(earlier + "\n" + V.NoteText(commands, results))
         == Parse(StripCr(earlier)) + [VerifyBlock(V.Passed(commands, results), AllReadBack(commands, results))]
  {
    hide V.Entry, Lines, Records, Segments;
    VerifyNoteReadsBack(commands, results);
    NoteStartsWithHeading(commands, results);
    AppendedNotes(earlier, V.NoteText(commands, results));
  }

  lemma NoteStartsWithHeading(commands: seq<string>, results: seq<V.RunResult>)
    requires |results| <= |commands|
    ensures StartsWithMarker(Lines(V.NoteText(commands, results)))
  {
    hide V.NoteText, EntriesText, Lines, IsMarker, IsHeading, V.Passed, V.Heading;
    var heading := V.Heading(V.Passed(commands, results));
    HeadingLine(V.Passed(commands, results));
    NoteShape(commands, results);
    if results == [] {
      LinesCons(heading, "");
    } else {
      LinesCons(heading, EntriesText(commands, results));
    }
  }
}

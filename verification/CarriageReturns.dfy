// Exactly when notes that end in a carriage return read differently once another note follows.
module CarriageReturns {
  import opened Text
  import opened Ledger
  import opened Notes
  import opened NotesLaws

  /** A line kept as it is: an operator's. */
  predicate IsVerbatim(line: string) {
    StartsWith(line, "guidance: ") || StartsWith(line, "released: ") || IsOperator(line)
  }

  /** Reading `lines` ends inside a verify block. */
  predicate InBlock(lines: seq<string>)
    decreases |lines|
  {
    if lines == [] then false
    else if IsHeading(lines[0]) then
      var read := Records(lines[1..]);
      read.rest == [] || InBlock(read.rest)
    else InBlock(lines[1..])
  }

  /** `x` comes right after a command, where its status is expected, and is one. */
  predicate IsStatusAfter(lines: seq<string>, x: string) {
    lines != [] && IsCommand(lines[|lines| - 1]) && StatusOf([x]).Some?
  }

  /** After `lines`, the line `x` is kept as it is: an operator's line, or, in a verify block, a command or
      its status. */
  predicate KeptVerbatim(lines: seq<string>, x: string) {
    IsVerbatim(x) || (InBlock(lines) && (IsCommand(x) || IsStatusAfter(lines, x)))
  }

  // ---- a carriage return at the end of one line ---------------------------------------------------------------------

  lemma PrefixIgnoresCr(x: string, prefix: string)
    requires '\r' !in prefix
    ensures StartsWith(x + "\r", prefix) <==> StartsWith(x, prefix)
  {
    var y := x + "\r";
    assert y[|x|] == '\r' && y[..|x|] == x;
    assert forall i :: 0 <= i < |prefix| ==> prefix[i] != '\r';
  }

  lemma LineKindsIgnoreCr(x: string)
    ensures IsHeading(x + "\r") <==> IsHeading(x)
    ensures StartsWith(x + "\r", "verify PASSED") <==> StartsWith(x, "verify PASSED")
    ensures StartsWith(x + "\r", "guidance: ") <==> StartsWith(x, "guidance: ")
    ensures StartsWith(x + "\r", "released: ") <==> StartsWith(x, "released: ")
    ensures IsOperator(x + "\r") <==> IsOperator(x)
    ensures IsMarker(x + "\r") <==> IsMarker(x)
    ensures IsCommand(x + "\r") <==> IsCommand(x)
    ensures Blank(x + "\r") <==> Blank(x)
    ensures StatusOf([x + "\r"]).None?
  {
    hide Trim;
    PrefixIgnoresCr(x, "verify PASSED");
    PrefixIgnoresCr(x, "verify FAILED");
    PrefixIgnoresCr(x, "guidance: ");
    PrefixIgnoresCr(x, "released: ");
    PrefixIgnoresCr(x, "resume-from: ");
    PrefixIgnoresCr(x, "operator: ");
    PrefixIgnoresCr(x, "incident resolved by operator:");
    PrefixIgnoresCr(x, "$ ");
    assert x + "\r" == x + ['\r'];
    TrimSpace(x, '\r');
  }

  lemma JoinIgnoresCr(lines: seq<string>, x: string)
    ensures Trim(Join(lines + [x + "\r"])) == Trim(Join(lines + [x]))
  {
    hide Trim, Join;
    JoinSnoc(lines, x);
    JoinSnoc(lines, x + "\r");
    var joined := Join(lines + [x]);
    assert Join(lines + [x + "\r"]) == joined + ['\r'];
    TrimSpace(joined, '\r');
  }

  /** The line that may or may not end in a carriage return ends the output, or is its last line. */
  lemma {:induction false} TailOfSnoc(lines: seq<string>, x: string)
    ensures TailLength(lines + [x])
         == if TailLength(lines) < |lines| then TailLength(lines)
            else |lines| + if IsCommand(x) || IsMarker(x) then 0 else 1
  {
    hide IsCommand, IsMarker;
    if lines == [] {
      assert lines + [x] == [x];
      var none: seq<string> := [x][1..];
      assert none == [];
    } else {
      assert (lines + [x])[1..] == lines[1..] + [x];
      TailOfSnoc(lines[1..], x);
    }
  }

  /** A record with one more line after it: the line is left over, or it is the record's status, or it joins
      the record's output. */
  lemma RecordOfSnoc(command: string, lines: seq<string>, x: string)
    ensures var r, s, t := RecordOf(command, lines), RecordOf(command, lines + [x]),
            RecordOf(command, lines + [x + "\r"]);
            if r.1 != [] then s == (r.0, r.1 + [x]) && t == (r.0, r.1 + [x + "\r"])
            else if lines == [] && StatusOf([x]).Some? then s.1 == t.1 == [] && s.0 != t.0
            else if IsCommand(x) || IsMarker(x) then s == (r.0, [x]) && t == (r.0, [x + "\r"])
            else s == t && s.1 == []
  {
    hide IsCommand, IsMarker, RecordOf, StatusOf;
    if lines == [] {
      assert lines + [x] == [x] && lines + [x + "\r"] == [x + "\r"];
      RecordOfOne(command, x);
    } else {
      RecordOfMore(command, lines, x);
    }
  }

  lemma RecordOfOne(command: string, x: string)
    ensures var r, s, t := RecordOf(command, []), RecordOf(command, [x]), RecordOf(command, [x + "\r"]);
            && r.1 == []
            && if StatusOf([x]).Some? then s.1 == t.1 == [] && s.0 != t.0
               else if IsCommand(x) || IsMarker(x) then s == (r.0, [x]) && t == (r.0, [x + "\r"])
               else s == t && s.1 == []
  {
    hide IsCommand, IsMarker, TailLength, Trim, Join;
    var y := x + "\r";
    LineKindsIgnoreCr(x);
    MarkersAreNoCommands(x);
    TailOfSnoc([], x);
    TailOfSnoc([], y);
    assert [] + [x] == [x] && [] + [y] == [y];
    NoTail();
    OnlyLine(x);
    OnlyLine(y);
    if StatusOf([x]).Some? {
      StatusDiffers(x);
    } else {
      JoinIgnoresCr([], x);
    }
  }

  lemma RecordOfMore(command: string, lines: seq<string>, x: string)
    requires lines != []
    ensures var r, s, t := RecordOf(command, lines), RecordOf(command, lines + [x]),
            RecordOf(command, lines + [x + "\r"]);
            if r.1 != [] then s == (r.0, r.1 + [x]) && t == (r.0, r.1 + [x + "\r"])
            else if IsCommand(x) || IsMarker(x) then s == (r.0, [x]) && t == (r.0, [x + "\r"])
            else s == t && s.1 == []
  {
    hide IsCommand, IsMarker, TailLength, Trim, Join, StatusOf;
    var y, body := x + "\r", BodyOf(lines);
    LineKindsIgnoreCr(x);
    BodyOfMore(lines, x);
    BodyOfMore(lines, y);
    TailOfSnoc(body, x);
    TailOfSnoc(body, y);
    BodyCuts(body, x);
    BodyCuts(body, y);
    JoinIgnoresCr(body, x);
  }

  /** The lines of a record after its status, if it has one. */
  function BodyOf(lines: seq<string>): seq<string> {
    if StatusOf(lines).Some? then lines[1..] else lines
  }

  lemma BodyOfMore(lines: seq<string>, x: string)
    requires lines != []
    ensures StatusOf(lines + [x]) == StatusOf(lines) && BodyOf(lines + [x]) == BodyOf(lines) + [x]
  {
    assert (lines + [x])[0] == lines[0];
    assert (lines + [x])[1..] == lines[1..] + [x];
  }

  lemma NoTail()
    ensures TailLength([]) == 0 && Trim(Join([])) == ""
  {
  }

  lemma OnlyLine(x: string)
    ensures [x][..1] == [x] && [x][1..] == [] && [x][..0] == [] && [x][0..] == [x]
  {
  }

  /** With the carriage return the status line is no status but output. */
  lemma StatusDiffers(x: string)
    requires StatusOf([x]).Some?
    ensures !IsCommand(x) && !IsMarker(x)
    ensures StatusOf([x]).value == "" ==> Trim(Join([x + "\r"])) != ""
  {
    MarkersAreNoCommands(x);
    NotBlank(x + "\r");
    assert Join([x + "\r"]) == x + "\r";
  }

  lemma BodyCuts(body: seq<string>, x: string)
    ensures forall n :: 0 <= n <= |body| ==> (body + [x])[..n] == body[..n] && (body + [x])[n..] == body[n..] + [x]
    ensures (body + [x])[..|body| + 1] == body + [x] && (body + [x])[|body| + 1..] == []
    ensures body[..|body|] == body && body[|body|..] == []
  {
  }

  lemma OneLineRecords(x: string)
    ensures Records([x])
         == if IsCommand(x) then Read([VerifyLine(x[2..], "", "")], []) else if Blank(x) then Read([], [])
             else Read([], [x])
  {
    hide Trim, Join;
    NoTail();
    var rest: seq<string> := [x][1..];
    assert rest == [];
    if IsCommand(x) {
      assert RecordOf(x[2..], []) == (VerifyLine(x[2..], "", ""), []);
    }
  }

  lemma FirstCancels(first: VerifyLine, a: seq<VerifyLine>, b: seq<VerifyLine>)
    ensures [first] + a == [first] + b <==> a == b
  {
    assert ([first] + a)[1..] == a && ([first] + b)[1..] == b;
  }

  lemma EmptyRecords()
    ensures Records([]) == Read([], [])
  {
  }

  lemma NoStatusInMarkers(x: string)
    ensures IsMarker(x) || IsCommand(x) ==> StatusOf([x]).None?
  {
    MarkersAreNoCommands(x);
  }

  lemma BlankIsNoCommand(x: string)
    ensures Blank(x) ==> !IsCommand(x)
  {
    if IsCommand(x) {
      assert x[0] == '$';
      NotBlank(x);
    }
  }

  lemma {:induction false} TailHasNoCommand(lines: seq<string>)
    requires TailLength(lines) == |lines|
    ensures forall i :: 0 <= i < |lines| ==> !IsCommand(lines[i])
  {
    hide IsCommand, IsMarker;
    if lines != [] {
      TailHasNoCommand(lines[1..]);
    }
  }

  /** What a record leaves over is the end of its lines; if nothing is left, its last line was no command. */
  lemma RecordEnds(command: string, lines: seq<string>)
    ensures var rest := RecordOf(command, lines).1;
            && (rest != [] ==> lines != [] && rest[|rest| - 1] == lines[|lines| - 1])
            && (rest == [] && lines != [] ==> !IsCommand(lines[|lines| - 1]))
  {
    hide IsCommand, IsMarker, Trim, Join, TailLength;
    var status := StatusOf(lines);
    var body := if status.Some? then lines[1..] else lines;
    if TailLength(body) == |body| {
      TailHasNoCommand(body);
      if lines != [] { NoStatusInMarkers(lines[0]); OnlyLine(lines[0]); }
    }
  }

  /** The records of a block with one more line after it. */
  lemma {:induction false} RecordsOfSnoc(lines: seq<string>, x: string)
    ensures var r, s, t := Records(lines), Records(lines + [x]), Records(lines + [x + "\r"]);
            if r.rest != [] then s == Read(r.commands, r.rest + [x]) && t == Read(r.commands, r.rest + [x + "\r"])
            else if IsCommand(x) || IsStatusAfter(lines, x) then s.rest == t.rest == [] && s.commands != t.commands
            else if IsMarker(x) then s == Read(r.commands, [x]) && t == Read(r.commands, [x + "\r"])
            else s.commands == t.commands && ((s.rest == t.rest == []) || (s.rest == [x] && t.rest == [x + "\r"]))
    decreases |lines|
  {
    hide IsCommand, IsMarker, Blank, RecordOf, StatusOf;
    var y := x + "\r";
    LineKindsIgnoreCr(x);
    MarkersAreNoCommands(x);
    NoStatusInMarkers(x);
    if lines == [] {
      assert lines + [x] == [x] && lines + [y] == [y];
      OneLineRecords(x);
      OneLineRecords(y);
      if IsCommand(x) {
        CommandLength(x);
        assert y[2..] == x[2..] + "\r";
      }
    } else {
      var line := lines[0];
      assert (lines + [x])[1..] == lines[1..] + [x] && (lines + [y])[1..] == lines[1..] + [y];
      if IsCommand(line) {
        CommandLength(line);
        RecordOfSnoc(line[2..], lines[1..], x);
        var (record, rest) := RecordOf(line[2..], lines[1..]);
        if rest != [] {
          RecordEnds(line[2..], lines[1..]);
          RecordsOfSnoc(rest, x);
          FirstCancels(record, Records(rest + [x]).commands, Records(rest + [y]).commands);
        } else {
          RecordEnds(line[2..], lines[1..]);
          EmptyRecords();
          OneLineRecords(x);
          OneLineRecords(y);
          var (s0, s1) := RecordOf(line[2..], lines[1..] + [x]);
          var (t0, t1) := RecordOf(line[2..], lines[1..] + [y]);
          if IsCommand(x) {
            CommandLength(x);
            assert y[2..] == x[2..] + "\r";
            FirstCancels(record, Records([x]).commands, Records([y]).commands);
          } else if s1 == [] {
            assert ([s0] + [])[0] == s0 && ([t0] + [])[0] == t0;
          }
        }
      } else if Blank(line) {
        RecordsOfSnoc(lines[1..], x);
        BlankIsNoCommand(line);
      }
    }
  }

  // ---- segments -----------------------------------------------------------------------------------------------------

  lemma SegmentsCancel(before: seq<Segment>, a: Segment, b: Segment, s: seq<Segment>, t: seq<Segment>)
    ensures before + [a] + s == before + [b] + t <==> a == b && s == t
  {
    var left, right, n := before + [a] + s, before + [b] + t, |before|;
    assert left[n] == a && right[n] == b && left[n + 1..] == s && right[n + 1..] == t;
  }

  /** A single line: the carriage return shows exactly in an operator's line. */
  lemma OneLineShows(x: string, plain: seq<string>)
    ensures Segments([x + "\r"], plain) == Segments([x], plain) <==> !IsVerbatim(x)
  {
    hide Trim, Join, IsHeading, IsOperator, StartsWith, Records;
    var y := x + "\r";
    LineKindsIgnoreCr(x);
    JoinIgnoresCr(plain, x);
    EmptyRecords();
    OnlyLine(x);
    OnlyLine(y);
    NothingLeft([]);
    FlushNothing();
    NothingLeft(plain + [x]);
    NothingLeft(plain + [y]);
    if IsHeading(x) {
      assert Segments([y], plain) == Segments([x], plain);
      HeadingIsNotVerbatim(x);
    } else if StartsWith(x, "guidance: ") {
      PrefixLength(x, "guidance: ");
      assert y[|"guidance: "|..] == x[|"guidance: "|..] + "\r";
      SegmentsCancel(Flush(plain), Guidance(y[|"guidance: "|..]), Guidance(x[|"guidance: "|..]), [], []);
    } else if StartsWith(x, "released: ") {
      PrefixLength(x, "released: ");
      assert y[|"released: "|..] == x[|"released: "|..] + "\r";
      SegmentsCancel(Flush(plain), Released(y[|"released: "|..]), Released(x[|"released: "|..]), [], []);
    } else if IsOperator(x) {
      SegmentsCancel(Flush(plain), OperatorLine(y), OperatorLine(x), [], []);
    }
  }

  lemma HeadingIsNotVerbatim(x: string)
    ensures IsHeading(x) ==> !IsVerbatim(x)
  {
    FirstCharacter(x, "verify PASSED");
    FirstCharacter(x, "verify FAILED");
    FirstCharacter(x, "guidance: ");
    FirstCharacter(x, "released: ");
    FirstCharacter(x, "resume-from: ");
    FirstCharacter(x, "operator: ");
    FirstCharacter(x, "incident resolved by operator:");
  }

  lemma FirstCharacter(x: string, prefix: string)
    requires prefix != ""
    ensures StartsWith(x, prefix) ==> x != "" && x[0] == prefix[0]
  {
  }

  lemma PrefixLength(x: string, prefix: string)
    requires StartsWith(x, prefix)
    ensures |prefix| <= |x|
  {
  }

  /** Whether the carriage return at the end of the last line shows: exactly when the line is kept verbatim
      where it stands. */
  lemma {:induction false} LastLineShows(lines: seq<string>, x: string, plain: seq<string>)
    ensures Segments(lines + [x + "\r"], plain) == Segments(lines + [x], plain) <==> !KeptVerbatim(lines, x)
    decreases |lines|, 0
  {
    hide IsHeading, IsOperator, Flush, Records, IsMarker, IsCommand, StatusOf;
    var y := x + "\r";
    if lines == [] {
      assert lines + [x] == [x] && lines + [y] == [y];
      OneLineShows(x, plain);
    } else {
      var line, rest := lines[0], lines[1..];
      assert [line] + rest == lines;
      assert (lines + [x])[1..] == rest + [x] && (lines + [y])[1..] == rest + [y];
      if IsHeading(line) {
        BlockShows(line, rest, x, plain);
      } else if StartsWith(line, "guidance: ") {
        LastLineShows(rest, x, []);
        VerbatimLater(line, rest, x);
        SegmentsCancel(Flush(plain), Guidance(line[|"guidance: "|..]), Guidance(line[|"guidance: "|..]),
                       Segments(rest + [y], []), Segments(rest + [x], []));
      } else if StartsWith(line, "released: ") {
        LastLineShows(rest, x, []);
        VerbatimLater(line, rest, x);
        SegmentsCancel(Flush(plain), Released(line[|"released: "|..]), Released(line[|"released: "|..]),
                       Segments(rest + [y], []), Segments(rest + [x], []));
      } else if IsOperator(line) {
        LastLineShows(rest, x, []);
        VerbatimLater(line, rest, x);
        SegmentsCancel(Flush(plain), OperatorLine(line), OperatorLine(line), Segments(rest + [y], []),
                       Segments(rest + [x], []));
      } else {
        LastLineShows(rest, x, plain + [line]);
        VerbatimLater(line, rest, x);
      }
    }
  }

  /** Only what comes after a line that is no heading matters. */
  lemma VerbatimLater(line: string, rest: seq<string>, x: string)
    requires !IsHeading(line)
    ensures KeptVerbatim([line] + rest, x) <==> KeptVerbatim(rest, x)
  {
    hide IsHeading, IsCommand, StatusOf, Records;
    var lines := [line] + rest;
    assert lines[1..] == rest && lines[0] == line;
    assert InBlock(lines) <==> InBlock(rest);
    if rest != [] {
      assert lines[|lines| - 1] == rest[|rest| - 1];
    } else {
      assert !InBlock(rest);
    }
  }

  lemma {:induction false} RecordsEnd(lines: seq<string>)
    ensures var rest := Records(lines).rest; rest != [] ==> lines != [] && rest[|rest| - 1] == lines[|lines| - 1]
    decreases |lines|
  {
    hide IsCommand, Blank, RecordOf;
    if lines != [] {
      if IsCommand(lines[0]) {
        CommandLength(lines[0]);
        RecordEnds(lines[0][2..], lines[1..]);
        RecordsEnd(RecordOf(lines[0][2..], lines[1..]).1);
      } else if Blank(lines[0]) {
        RecordsEnd(lines[1..]);
      }
    }
  }

  /** Where the line stands after a heading: inside the block, or where the rest of the lines leaves it. */
  lemma VerbatimInBlock(heading: string, lines: seq<string>, x: string)
    requires IsHeading(heading)
    ensures var rest := Records(lines).rest;
            KeptVerbatim([heading] + lines, x)
            <==> if rest == [] then IsVerbatim(x) || IsCommand(x) || IsStatusAfter(lines, x) else KeptVerbatim(rest, x)
  {
    hide IsHeading, IsCommand, StatusOf, Records, IsMarker, IsVerbatim;
    var all := [heading] + lines;
    assert all[1..] == lines && all[0] == heading;
    RecordsEnd(lines);
    HeadingIsMarker(heading);
    MarkersAreNoCommands(heading);
    if lines != [] {
      assert all[|all| - 1] == lines[|lines| - 1];
    }
  }

  lemma HeadingIsMarker(x: string)
    ensures IsHeading(x) ==> IsMarker(x)
    ensures IsVerbatim(x) ==> IsMarker(x)
    ensures IsMarker(x) ==> IsHeading(x) || IsVerbatim(x)
  {
  }

  /** The line comes somewhere after a heading: inside its block, or later. */
  lemma {:induction false} BlockShows(heading: string, lines: seq<string>, x: string, plain: seq<string>)
    requires IsHeading(heading)
    ensures Segments([heading] + lines + [x + "\r"], plain) == Segments([heading] + lines + [x], plain)
       <==> !KeptVerbatim([heading] + lines, x)
    decreases |lines|, 1
  {
    hide IsHeading, Segments, Flush, Records, IsMarker, IsCommand, IsVerbatim, IsStatusAfter, KeptVerbatim;
    var y := x + "\r";
    RecordsOfSnoc(lines, x);
    BlockSegments(heading, lines + [x], plain);
    BlockSegments(heading, lines + [y], plain);
    assert [heading] + lines + [x] == [heading] + (lines + [x]) && [heading] + lines + [y] == [heading] + (lines + [y]);
    var r, s, t := Records(lines), Records(lines + [x]), Records(lines + [y]);
    var passed := StartsWith(heading, "verify PASSED");
    SegmentsCancel(Flush(plain), VerifyBlock(passed, t.commands), VerifyBlock(passed, s.commands),
                   Segments(t.rest, []), Segments(s.rest, []));
    VerbatimInBlock(heading, lines, x);
    HeadingIsMarker(x);
    if r.rest != [] {
      LastLineShows(r.rest, x, []);
    } else {
      OneLineShows(x, []);
    }
  }

  lemma BlockSegments(heading: string, lines: seq<string>, plain: seq<string>)
    requires IsHeading(heading)
    ensures Segments([heading] + lines, plain)
         == Flush(plain) + [VerifyBlock(StartsWith(heading, "verify PASSED"), Records(lines).commands)]
            + Segments(Records(lines).rest, [])
  {
    hide Flush, Records;
    assert ([heading] + lines)[1..] == lines;
  }

  // ---- appended notes -----------------------------------------------------------------------------------------------

  /** The notes end in a carriage return in a line that is kept as it is. */
  predicate EndsInKeptCr(notes: string) {
    var lines := Lines(notes);
    && notes != "" && notes[|notes| - 1] == '\r'
    && lines != [] && KeptVerbatim(lines[..|lines| - 1], StripCr(lines[|lines| - 1]))
  }

  /** The lines of notes that end in a carriage return, with and without it. */
  lemma {:induction false} LinesOfCr(notes: string) returns (before: seq<string>, x: string)
    requires notes != "" && notes[|notes| - 1] == '\r'
    ensures Lines(notes) == before + [x + "\r"]
    ensures Lines(StripCr(notes)) == if x == "" then before else before + [x]
    decreases |notes|
  {
    hide Lines;
    var i := NewlineAt(notes);
    if i == |notes| {
      before, x := [], notes[..|notes| - 1];
      assert notes == x + "\r";
      LinesCons(notes, "");
      LinesCons(x, "");
    } else {
      var first, rest := notes[..i], notes[i + 1..];
      assert notes == first + "\n" + rest;
      LinesCons(first, rest);
      StripCrOfRest(first, rest);
      LinesCons(first, StripCr(rest));
      before, x := LinesOfCr(rest);
      before := [StripCr(first)] + before;
    }
  }

  /** Parsing an append is parsing both parts exactly when the earlier part does not end in a carriage return
      in an operator's line, or in a command or status line of a verify block. */
  lemma AppendedNotesIff(earlier: string, later: string)
    requires StartsWithMarker(Lines(later))
    ensures Parse(earlier + "\n" + later) == Parse(earlier) + Parse(later) <==> !EndsInKeptCr(earlier)
  {
    hide Lines, Segments, KeptVerbatim;
    AppendedNotes(earlier, later);
    if earlier != "" && earlier[|earlier| - 1] == '\r' {
      var before, x := LinesOfCr(earlier);
      var lines := Lines(earlier);
      assert lines[..|lines| - 1] == before && StripCr(lines[|lines| - 1]) == x by {
        var last := x + "\r";
        assert last[..|last| - 1] == x;
      }
      LastLineShows(before, x, []);
      if x == "" {
        SegmentsBeforeSeam(before, [], [""], []);
        NothingLeft([]);
        FlushNothing();
        assert before + [""] + [] == before + [x];
      }
      SameEnding(Parse(StripCr(earlier)), Parse(earlier), Parse(later));
    } else {
      assert StripCr(earlier) == earlier;
    }
  }

  lemma SameEnding(a: seq<Segment>, b: seq<Segment>, c: seq<Segment>)
    ensures a + c == b + c <==> a == b
  {
    if a + c == b + c {
      assert |a| == |b| && (a + c)[..|a|] == a && (b + c)[..|b|] == b;
    }
  }
}

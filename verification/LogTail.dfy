// Following a growing log: complete lines after a byte offset, and the offset to resume from.
module LogTail {
  import opened Time
  import opened Ledger

  type Byte = b: int | 0 <= b < 256

  const NEWLINE: Byte := 10

  type Bytes = seq<Byte>

  function NewlineIn(s: Bytes): (i: nat)
    ensures i <= |s| && NEWLINE !in s[..i] && (i < |s| ==> s[i] == NEWLINE)
  {
    if s == [] || s[0] == NEWLINE then 0 else 1 + NewlineIn(s[1..])
  }

  /** The pieces between newlines; one more than there are newlines. */
  function Split(s: Bytes): seq<Bytes> {
    var i := NewlineIn(s);
    if i == |s| then [s] else [s[..i]] + Split(s[i + 1..])
  }

  /** The length up to and including the last newline. */
  function CompleteLength(s: Bytes): (n: nat)
    ensures n <= |s| && NEWLINE !in s[n..] && (n > 0 ==> s[n - 1] == NEWLINE)
  {
    if s == [] then 0
    else if s[|s| - 1] == NEWLINE then |s|
    else CompleteLength(s[..|s| - 1])
  }

  /** The records of the non-empty pieces that decode. */
  function Decoded<V>(pieces: seq<Bytes>, decode: Bytes -> Option<V>): seq<V> {
    if pieces == [] then []
    else
      (if pieces[0] == [] then []
       else match decode(pieces[0])
            case Some(v) => [v]
            case None => [])
      + Decoded(pieces[1..], decode)
  }

  function ParseFrom<V>(bytes: Bytes, cursor: Tokens, decode: Bytes -> Option<V>): (seq<V>, nat) {
    var start := Min(cursor, |bytes|);
    var rest := bytes[start..];
    var complete := CompleteLength(rest);
    (Decoded(Split(rest[..complete]), decode), start + complete)
  }

  /** A cursor beyond the end, as after the log was cut, reads nothing and comes back to the end. */
  lemma BeyondTheEnd<V>(bytes: Bytes, cursor: Tokens, decode: Bytes -> Option<V>)
    requires cursor >= |bytes|
    ensures ParseFrom(bytes, cursor, decode) == ([], |bytes|)
  {
    assert bytes[|bytes|..] == [];
    var nothing: Bytes := [];
    var piece: seq<Bytes> := [nothing];
    assert NewlineIn(nothing) == |nothing| && Split(nothing) == piece && piece[1..] == [];
    assert Decoded(piece, decode) == [] && nothing[..0] == nothing;
  }

  // ---- what a reader should see ------------------------------------------------------------------------------------

  /** The complete lines of a log, in order, without their newlines. */
  function CompleteLines(s: Bytes): seq<Bytes> {
    var i := NewlineIn(s);
    if i == |s| then [] else [s[..i]] + CompleteLines(s[i + 1..])
  }

  predicate Ended(s: Bytes) {
    s == [] || s[|s| - 1] == NEWLINE
  }

  lemma {:induction false} DecodedAppend<V>(a: seq<Bytes>, b: seq<Bytes>, decode: Bytes -> Option<V>)
    ensures Decoded(a + b, decode) == Decoded(a, decode) + Decoded(b, decode)
  {
    if a == [] {
      assert a + b == b;
    } else {
      assert (a + b)[1..] == a[1..] + b;
      DecodedAppend(a[1..], b, decode);
    }
  }

  lemma {:induction false} NewlineInPrefix(a: Bytes, b: Bytes)
    ensures NewlineIn(a + b) == if NewlineIn(a) < |a| then NewlineIn(a) else |a| + NewlineIn(b)
  {
    if a == [] {
      assert a + b == b;
    } else if a[0] != NEWLINE {
      assert (a + b)[1..] == a[1..] + b;
      NewlineInPrefix(a[1..], b);
    }
  }

  lemma {:induction false} EndedHasNewline(s: Bytes)
    requires Ended(s) && s != []
    ensures NewlineIn(s) < |s| && Ended(s[NewlineIn(s) + 1..])
  {
    if s[0] != NEWLINE {
      EndedHasNewline(s[1..]);
      assert s[1..][NewlineIn(s[1..]) + 1..] == s[NewlineIn(s) + 1..];
    }
  }

  lemma LineFirst(line: Bytes, rest: Bytes)
    requires NEWLINE !in line
    ensures CompleteLines(line + [NEWLINE] + rest) == [line] + CompleteLines(rest)
  {
    var s := line + ([NEWLINE] + rest);
    NoLines(line);
    NewlineInPrefix(line, [NEWLINE] + rest);
    assert s == line + [NEWLINE] + rest && s[..|line|] == line && s[|line| + 1..] == rest;
  }

  /** Lines of text appended to finished lines come after them. */
  lemma {:induction false} LinesOfAppend(a: Bytes, b: Bytes)
    requires Ended(a)
    ensures CompleteLines(a + b) == CompleteLines(a) + CompleteLines(b)
    decreases |a|
  {
    hide CompleteLines, Ended;
    if a == [] {
      assert a + b == b;
      NoLines([]);
    } else {
      var i := NewlineIn(a);
      EndedHasNewline(a);
      var line, rest := a[..i], a[i + 1..];
      LinesOfAppend(rest, b);
      assert a == line + [NEWLINE] + rest;
      assert a + b == line + [NEWLINE] + (rest + b);
      LineFirst(line, rest);
      LineFirst(line, rest + b);
    }
  }

  lemma {:induction false} NoLines(s: Bytes)
    requires NEWLINE !in s
    ensures NewlineIn(s) == |s| && CompleteLines(s) == []
  {
    if s != [] {
      assert s[0] in s;
      assert forall x :: x in s[1..] ==> x in s;
      NoLines(s[1..]);
    }
  }

  lemma SplitOfNothing<V>(decode: Bytes -> Option<V>)
    ensures Decoded(Split([]), decode) == Decoded(CompleteLines([]), decode)
  {
    assert Split([]) == [[]];
    var rest: seq<Bytes> := [[]][1..];
    assert rest == [];
  }

  /** Splitting finished text gives its lines and an empty piece, which is dropped. */
  lemma {:induction false} SplitOfEnded<V>(s: Bytes, decode: Bytes -> Option<V>)
    requires Ended(s)
    ensures Decoded(Split(s), decode) == Decoded(CompleteLines(s), decode)
    decreases |s|
  {
    hide Decoded, NewlineIn;
    var i := NewlineIn(s);
    if s == [] {
      SplitOfNothing(decode);
    } else {
      EndedHasNewline(s);
      SplitOfEnded(s[i + 1..], decode);
      DecodedAppend([s[..i]], Split(s[i + 1..]), decode);
      DecodedAppend([s[..i]], CompleteLines(s[i + 1..]), decode);
    }
  }

  /** One read from a cursor that stands after a complete line: every complete line after it that decodes,
      in order, and the cursor after the last of them; what follows has no newline yet. */
  lemma ReadDeliversCompleteLines<V>(bytes: Bytes, cursor: Tokens, decode: Bytes -> Option<V>)
    requires cursor <= |bytes| && Ended(bytes[..cursor])
    ensures var (records, next) := ParseFrom(bytes, cursor, decode);
            && cursor <= next <= |bytes| && Ended(bytes[..next]) && NEWLINE !in bytes[next..]
            && Decoded(CompleteLines(bytes[..cursor]), decode) + records
                 == Decoded(CompleteLines(bytes[..next]), decode)
            && CompleteLines(bytes[..next]) == CompleteLines(bytes)
  {
    hide CompleteLines, Split, Decoded, CompleteLength, Ended, NewlineIn;
    var rest := bytes[cursor..];
    var complete := CompleteLength(rest);
    var next := cursor + complete;
    var a, b, c := bytes[..cursor], rest[..complete], rest[complete..];
    CutIsEnded(rest);
    ThreeParts(bytes, cursor, complete);
    ReadLines(a, b, c, decode);
  }

  /** The text before the cursor, what a read takes, and what it leaves. */
  lemma ThreeParts(bytes: Bytes, cursor: nat, complete: nat)
    requires cursor <= |bytes| && complete <= |bytes| - cursor
    ensures var a, b, c := bytes[..cursor], bytes[cursor..][..complete], bytes[cursor..][complete..];
            bytes[..cursor + complete] == a + b && bytes == a + b + c && bytes[cursor + complete..] == c
  {
  }

  lemma ReadLines<V>(a: Bytes, b: Bytes, c: Bytes, decode: Bytes -> Option<V>)
    requires Ended(a) && Ended(b) && NEWLINE !in c
    ensures Ended(a + b)
    ensures Decoded(CompleteLines(a), decode) + Decoded(Split(b), decode) == Decoded(CompleteLines(a + b), decode)
    ensures CompleteLines(a + b + c) == CompleteLines(a + b)
  {
    hide CompleteLines, Split, Decoded, CompleteLength, Ended, NewlineIn;
    EndedTogether(a, b);
    SplitOfEnded(b, decode);
    LinesOfAppend(a, b);
    DecodedAppend(CompleteLines(a), CompleteLines(b), decode);
    LinesOfAppend(a + b, c);
    NoLines(c);
    assert CompleteLines(a + b) + [] == CompleteLines(a + b);
  }

  lemma CutIsEnded(s: Bytes)
    ensures Ended(s[..CompleteLength(s)]) && NEWLINE !in s[CompleteLength(s)..]
  {
  }

  lemma EndedTogether(a: Bytes, b: Bytes)
    requires Ended(a) && Ended(b)
    ensures Ended(a + b)
  {
  }

  // ---- what lines and records are -----------------------------------------------------------------------------------

  function Ending(lines: seq<Bytes>): Bytes {
    if lines == [] then [] else lines[0] + [NEWLINE] + Ending(lines[1..])
  }

  /** The complete lines, each with its newline again, are the log up to its last newline, and no line has one. */
  lemma {:induction false} LinesAreExact(s: Bytes)
    ensures forall i :: 0 <= i < |CompleteLines(s)| ==> NEWLINE !in CompleteLines(s)[i]
    ensures Ending(CompleteLines(s)) == s[..CompleteLength(s)]
    decreases |s|
  {
    hide CompleteLength, NewlineIn;
    var i := NewlineIn(s);
    if i == |s| {
      assert s[..i] == s;
      LengthOfNone(s);
    } else {
      var rest := s[i + 1..];
      LinesAreExact(rest);
      LengthAfter(s, i);
      FirstThenRest(s, i, CompleteLength(rest));
      EndingFirst(s[..i], CompleteLines(rest));
      FirstIsClean(s[..i], CompleteLines(rest));
    }
  }

  lemma EndingFirst(line: Bytes, lines: seq<Bytes>)
    ensures Ending([line] + lines) == line + [NEWLINE] + Ending(lines)
  {
    assert ([line] + lines)[1..] == lines;
  }

  lemma FirstIsClean(line: Bytes, lines: seq<Bytes>)
    requires NEWLINE !in line && forall i :: 0 <= i < |lines| ==> NEWLINE !in lines[i]
    ensures forall i :: 0 <= i < |[line] + lines| ==> NEWLINE !in ([line] + lines)[i]
  {
  }

  lemma FirstThenRest(s: Bytes, i: nat, n: nat)
    requires i < |s| && s[i] == NEWLINE && n <= |s| - i - 1
    ensures s[..i] + [NEWLINE] + s[i + 1..][..n] == s[..i + 1 + n]
  {
  }

  /** The length up to the last newline is the only one with a newline before it, if anything, and none after. */
  lemma {:induction false} CompleteLengthIs(s: Bytes, n: nat)
    requires n <= |s| && (forall k :: n <= k < |s| ==> s[k] != NEWLINE) && (n > 0 ==> s[n - 1] == NEWLINE)
    ensures CompleteLength(s) == n
  {
    if s != [] && s[|s| - 1] != NEWLINE {
      CompleteLengthIs(s[..|s| - 1], n);
    }
  }

  lemma LengthOfNone(s: Bytes)
    requires NEWLINE !in s
    ensures CompleteLength(s) == 0 && s[..0] == []
  {
    assert forall k :: 0 <= k < |s| ==> s[k] in s;
    CompleteLengthIs(s, 0);
  }

  lemma LengthAfter(s: Bytes, i: nat)
    requires i < |s| && s[i] == NEWLINE
    ensures CompleteLength(s) == i + 1 + CompleteLength(s[i + 1..])
  {
    hide NewlineIn;
    var rest := s[i + 1..];
    var m := CompleteLength(rest);
    var after := rest[m..];
    forall k | i + 1 + m <= k < |s|
      ensures s[k] != NEWLINE
    {
      assert s[k] == after[k - (i + 1 + m)];
      assert after[k - (i + 1 + m)] in after;
    }
    assert m > 0 ==> rest[m - 1] == s[i + m];
    CompleteLengthIs(s, i + 1 + m);
  }

  /** What is delivered of a sequence of lines: for each line that is not empty and decodes, its record, in order. */
  lemma {:induction false} DecodedIsExact<V>(lines: seq<Bytes>, decode: Bytes -> Option<V>) returns (at: seq<nat>)
    ensures |at| == |Decoded(lines, decode)|
    ensures forall i, j :: 0 <= i < j < |at| ==> at[i] < at[j]
    ensures forall p: nat :: p < |lines| ==> (p in at <==> lines[p] != [] && decode(lines[p]).Some?)
    ensures forall i :: 0 <= i < |at| ==>
              at[i] < |lines| && decode(lines[at[i]]) == Some(Decoded(lines, decode)[i])
  {
    hide Decoded;
    at := [];
    if lines == [] {
      NoneDecoded(decode);
    } else {
      var n := |lines| - 1;
      assert lines == lines[..n] + [lines[n]];
      DecodedAppend(lines[..n], [lines[n]], decode);
      OneDecoded(lines[n], decode);
      var before := DecodedIsExact(lines[..n], decode);
      assert forall i :: 0 <= i < |before| ==> before[i] < n && lines[..n][before[i]] == lines[before[i]];
      assert forall p: nat :: p < n ==> lines[..n][p] == lines[p];
      assert forall p: nat :: p in before ==> p < n;
      at := before + if lines[n] != [] && decode(lines[n]).Some? then [n] else [];
    }
  }

  lemma NoneDecoded<V>(decode: Bytes -> Option<V>)
    ensures Decoded([], decode) == []
  {
  }

  lemma OneDecoded<V>(line: Bytes, decode: Bytes -> Option<V>)
    ensures Decoded([line], decode) == if line == [] || decode(line).None? then [] else [decode(line).value]
  {
    var rest: seq<Bytes> := [line][1..];
    assert rest == [];
  }

  // ---- any schedule of appends and polls ----------------------------------------------------------------------------

  datatype Action = Append(chunk: Bytes) | Poll

  datatype Follower<V> = Follower(log: Bytes, cursor: nat, seen: seq<V>)

  function Act<V>(f: Follower<V>, action: Action, decode: Bytes -> Option<V>): Follower<V> {
    match action
    case Append(chunk) => f.(log := f.log + chunk)
    case Poll =>
      if f.cursor > U64_MAX then f
      else
        var (records, next) := ParseFrom(f.log, f.cursor, decode);
        f.(cursor := next, seen := f.seen + records)
  }

  function Follow<V>(actions: seq<Action>, decode: Bytes -> Option<V>): Follower<V> {
    if actions == [] then Follower([], 0, [])
    else Act(Follow(actions[..|actions| - 1], decode), actions[|actions| - 1], decode)
  }

  /** At every moment of every schedule, what was delivered is exactly the decodable complete lines up to
      the cursor, each once and in order. */
  lemma {:induction false} DeliveredUpToCursor<V>(actions: seq<Action>, decode: Bytes -> Option<V>)
    requires |Follow(actions, decode).log| <= U64_MAX
    ensures var f := Follow(actions, decode);
            && f.cursor <= |f.log| && Ended(f.log[..f.cursor])
            && f.seen == Decoded(CompleteLines(f.log[..f.cursor]), decode)
  {
    if actions != [] {
      var before := Follow(actions[..|actions| - 1], decode);
      var f := Follow(actions, decode);
      DeliveredUpToCursor(actions[..|actions| - 1], decode);
      if actions[|actions| - 1].Poll? {
        ReadDeliversCompleteLines(before.log, before.cursor, decode);
      } else {
        assert f.log[..f.cursor] == before.log[..before.cursor];
      }
    }
  }

  /** So after a poll the follower has seen what one read of the whole log from the start gives, however the
      log was written and polled before. */
  lemma ExactlyOnce<V>(actions: seq<Action>, decode: Bytes -> Option<V>)
    requires |Follow(actions + [Poll], decode).log| <= U64_MAX
    ensures var f := Follow(actions + [Poll], decode);
            && (f.seen, f.cursor) == ParseFrom(f.log, 0, decode)
            && f.seen == Decoded(CompleteLines(f.log), decode)
  {
    hide CompleteLines, Decoded, ParseFrom, Follow;
    var all := actions + [Poll];
    FollowPoll(actions, decode);
    assert all[..|all| - 1] == actions;
    var before := Follow(actions, decode);
    var f := Follow(all, decode);
    DeliveredUpToCursor(all, decode);
    DeliveredUpToCursor(actions, decode);
    ReadDeliversCompleteLines(before.log, before.cursor, decode);
    assert f.log[..0] == [];
    ReadDeliversCompleteLines(f.log, 0, decode);
    NothingDecoded(decode);
    var (records, next) := ParseFrom(f.log, 0, decode);
    SameCut(f.log, f.cursor, next);
    assert records == Decoded(CompleteLines(f.log[..0]), decode) + records;
  }

  lemma NothingDecoded<V>(decode: Bytes -> Option<V>)
    ensures Decoded(CompleteLines([]), decode) == []
  {
  }

  lemma FollowPoll<V>(actions: seq<Action>, decode: Bytes -> Option<V>)
    ensures Follow(actions + [Poll], decode) == Act(Follow(actions, decode), Poll, decode)
  {
    assert (actions + [Poll])[..|actions|] == actions;
  }

  lemma NewlineBetween(s: Bytes, a: nat, b: nat)
    requires a < b <= |s| && Ended(s[..b])
    ensures NEWLINE in s[a..]
  {
    assert s[a..][b - 1 - a] == s[..b][b - 1];
  }

  /** Only one place ends the last complete line. */
  lemma SameCut(s: Bytes, a: nat, b: nat)
    requires a <= |s| && b <= |s| && Ended(s[..a]) && Ended(s[..b]) && NEWLINE !in s[a..] && NEWLINE !in s[b..]
    ensures a == b
  {
    if a < b {
      NewlineBetween(s, a, b);
    } else if b < a {
      NewlineBetween(s, b, a);
    }
  }
}

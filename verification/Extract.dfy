// Finding a JSON object in a model's reply: a scan that knows about strings and counts braces.
module Extract {
  import opened Ledger
  import J = Json

  /** Where the scan is: the last brace inner at depth zero, the depth, inside a string, after a
      backslash. */
  datatype Scan = Scan(start: Option<nat>, depth: nat, inStr: bool, escape: bool)

  const BEGIN := Scan(None, 0, false, false)

  function Step(s: Scan, c: char, i: nat): Scan {
    if s.inStr then
      if s.escape then s.(escape := false)
      else if c == '\\' then s.(escape := true)
      else if c == '"' then s.(inStr := false)
      else s
    else if c == '"' then s.(inStr := true)
    else if c == '{' then s.(start := if s.depth == 0 then Some(i) else s.start, depth := s.depth + 1)
    else if c == '}' then s.(depth := if s.depth == 0 then 0 else s.depth - 1)
    else s
  }

  /** A closing brace that brings the depth to zero after some brace was inner. */
  predicate Closes(s: Scan, c: char) {
    !s.inStr && c == '}' && s.depth <= 1 && s.start.Some?
  }

  /** The scan after `text`, which begins at offset `at`. */
  function After(s: Scan, text: string, at: nat): Scan
    decreases |text|
  {
    if text == "" then s else After(Step(s, text[0], at), text[1..], at + 1)
  }

  /** No brace closes at depth zero within `text`. */
  predicate Quiet(s: Scan, text: string, at: nat)
    decreases |text|
  {
    text == "" || (!Closes(s, text[0]) && Quiet(Step(s, text[0], at), text[1..], at + 1))
  }

  lemma {:induction false} AfterAppend(s: Scan, a: string, b: string, at: nat)
    ensures After(s, a + b, at) == After(After(s, a, at), b, at + |a|)
    ensures Quiet(s, a + b, at) <==> Quiet(s, a, at) && Quiet(After(s, a, at), b, at + |a|)
    decreases |a|
  {
    if a == "" {
      assert a + b == b;
    } else {
      assert (a + b)[1..] == a[1..] + b;
      AfterAppend(Step(s, a[0], at), a[1..], b, at + 1);
    }
  }

  // ---- printed values ---------------------------------------------------------------------------------------------

  /** Scanning `text` inside braces and outside strings ends where it began, and closes nothing. */
  predicate Passes(s: Scan, text: string, at: nat) {
    After(s, text, at) == s && Quiet(s, text, at)
  }

  predicate Inside(s: Scan) {
    !s.inStr && !s.escape && s.depth >= 1
  }

  lemma PassesAppend(s: Scan, a: string, b: string, at: nat)
    requires Passes(s, a, at) && Passes(s, b, at + |a|)
    ensures Passes(s, a + b, at)
  {
    AfterAppend(s, a, b, at);
  }

  /** Characters that mean nothing to the scan outside strings. */
  predicate Neutral(text: string) {
    forall i :: 0 <= i < |text| ==> text[i] != '"' && text[i] != '{' && text[i] != '}'
  }

  lemma {:induction false} NeutralPasses(s: Scan, text: string, at: nat)
    requires !s.inStr && Neutral(text)
    ensures Passes(s, text, at)
    decreases |text|
  {
    if text != "" {
      NeutralPasses(s, text[1..], at + 1);
    }
  }

  lemma {:induction false} ItemsPass(s: Scan, items: seq<J.Item>, at: nat)
    requires s.inStr && !s.escape && J.ValidItems(items)
    ensures Passes(s, J.PrintItems(items), at)
    decreases |items|
  {
    if items != [] {
      var first := J.PrintItem(items[0]);
      assert J.ValidItem(items[0]);
      assert Passes(s, first, at) by {
        match items[0]
        case Plain(c) => PlainPasses(s, [c], at);
        case Escape(c) => EscapePasses(s, c, at);
        case Unicode(a, b, c, d) =>
          assert first == ['\\', 'u'] + [a, b, c, d];
          EscapePasses(s, 'u', at);
          PlainPasses(s, [a, b, c, d], at + 2);
          PassesAppend(s, ['\\', 'u'], [a, b, c, d], at);
      }
      ItemsPass(s, items[1..], at + |first|);
      PassesAppend(s, first, J.PrintItems(items[1..]), at);
    }
  }

  lemma EscapePasses(s: Scan, c: char, at: nat)
    requires s.inStr && !s.escape
    ensures Passes(s, ['\\', c], at)
  {
    var escaped := Step(s, '\\', at);
    assert ['\\', c][1..] == [c] && [c][1..] == "";
    assert After(escaped, [c], at + 1) == s && Quiet(escaped, [c], at + 1);
  }

  lemma {:induction false} PlainPasses(s: Scan, text: string, at: nat)
    requires s.inStr && !s.escape && forall i :: 0 <= i < |text| ==> text[i] != '"' && text[i] != '\\'
    ensures Passes(s, text, at)
    decreases |text|
  {
    if text != "" {
      PlainPasses(s, text[1..], at + 1);
    }
  }

  /** A printed string opens and closes, whatever quotes and braces it holds. */
  lemma StringPasses(s: Scan, items: seq<J.Item>, at: nat)
    requires !s.inStr && !s.escape && J.ValidItems(items)
    ensures Passes(s, J.PrintString(items), at)
  {
    var body := J.PrintItems(items);
    var open := s.(inStr := true);
    ItemsPass(open, items, at + 1);
    assert "\""[1..] == "";
    AfterAppend(s, "\"", body, at);
    AfterAppend(s, "\"" + body, "\"", at);
  }

  lemma SpacePasses(s: Scan, text: string, at: nat)
    requires !s.inStr && J.IsSpace(text)
    ensures Passes(s, text, at)
  {
    NeutralPasses(s, text, at);
  }

  lemma {:induction false} ValuePasses(s: Scan, v: J.Value, at: nat)
    requires Inside(s) && J.Valid(v)
    ensures Passes(s, J.Print(v), at)
    decreases v, 1
  {
    match v
    case Scalar(text) =>
      NeutralPasses(s, text, at);
    case Str(items) =>
      StringPasses(s, items, at);
    case Arr(space, elements) =>
      SpacePasses(s, space, at + 1);
      ElementsPass(s, elements, at + 1 + |space|);
      NeutralPasses(s, "[", at);
      PassesAppend(s, "[", space, at);
      PassesAppend(s, "[" + space, J.PrintElements(elements), at);
      NeutralPasses(s, "]", at + |"[" + space + J.PrintElements(elements)|);
      PassesAppend(s, "[" + space + J.PrintElements(elements), "]", at);
    case Obj(space, members) =>
      ObjectBody(s, space, members, at);
  }

  /** From any depth: the opening brace raises it, everything up to the closing brace keeps it there, and
      the closing brace brings it back. */
  lemma {:induction false} ObjectBody(s: Scan, space: string, members: seq<J.Member>, at: nat)
    requires !s.inStr && !s.escape && J.IsSpace(space) && forall i :: 0 <= i < |members| ==> J.ValidMember(members[i])
    ensures var inner := Step(s, '{', at);
            var body := "{" + space + J.PrintMembers(members);
            && Inside(inner) && After(s, body, at) == inner && Quiet(s, body, at)
            && After(s, body + "}", at) == inner.(depth := s.depth)
            && (s.depth >= 1 ==> Quiet(s, body + "}", at))
    decreases members, 1
  {
    var inner := Step(s, '{', at);
    assert "{"[1..] == "" && "}"[1..] == "";
    SpacePasses(inner, space, at + 1);
    MembersPass(inner, members, at + 1 + |space|);
    AfterAppend(s, "{", space, at);
    AfterAppend(s, "{" + space, J.PrintMembers(members), at);
    AfterAppend(s, "{" + space + J.PrintMembers(members), "}", at);
  }

  lemma {:induction false} ElementPasses(s: Scan, e: J.Element, at: nat)
    requires Inside(s) && J.ValidElement(e)
    ensures Passes(s, J.PrintElement(e), at)
    decreases e, 1
  {
    SpacePasses(s, e.before, at);
    ValuePasses(s, e.value, at + |e.before|);
    PassesAppend(s, e.before, J.Print(e.value), at);
    SpacePasses(s, e.after, at + |e.before + J.Print(e.value)|);
    PassesAppend(s, e.before + J.Print(e.value), e.after, at);
  }

  lemma {:induction false} ElementsPass(s: Scan, elements: seq<J.Element>, at: nat)
    requires Inside(s) && forall i :: 0 <= i < |elements| ==> J.ValidElement(elements[i])
    ensures Passes(s, J.PrintElements(elements), at)
    decreases elements, 0
  {
    if elements != [] {
      var first, comma := J.PrintElement(elements[0]), if |elements| == 1 then "" else ",";
      ElementPasses(s, elements[0], at);
      NeutralPasses(s, comma, at + |first|);
      PassesAppend(s, first, comma, at);
      ElementsPass(s, elements[1..], at + |first + comma|);
      PassesAppend(s, first + comma, J.PrintElements(elements[1..]), at);
    }
  }

  lemma {:induction false} MemberPasses(s: Scan, m: J.Member, at: nat)
    requires Inside(s) && J.ValidMember(m)
    ensures Passes(s, J.PrintMember(m), at)
    decreases m, 1
  {
    var key := J.PrintString(m.key);
    SpacePasses(s, m.before, at);
    StringPasses(s, m.key, at + |m.before|);
    PassesAppend(s, m.before, key, at);
    SpacePasses(s, m.between, at + |m.before + key|);
    PassesAppend(s, m.before + key, m.between, at);
    NeutralPasses(s, ":", at + |m.before + key + m.between|);
    PassesAppend(s, m.before + key + m.between, ":", at);
    ElementPasses(s, m.element, at + |m.before + key + m.between + ":"|);
    PassesAppend(s, m.before + key + m.between + ":", J.PrintElement(m.element), at);
  }

  lemma {:induction false} MembersPass(s: Scan, members: seq<J.Member>, at: nat)
    requires Inside(s) && forall i :: 0 <= i < |members| ==> J.ValidMember(members[i])
    ensures Passes(s, J.PrintMembers(members), at)
    decreases members, 0
  {
    if members != [] {
      var first, comma := J.PrintMember(members[0]), if |members| == 1 then "" else ",";
      MemberPasses(s, members[0], at);
      NeutralPasses(s, comma, at + |first|);
      PassesAppend(s, first, comma, at);
      MembersPass(s, members[1..], at + |first + comma|);
      PassesAppend(s, first + comma, J.PrintMembers(members[1..]), at);
    }
  }

  // ---- the search -------------------------------------------------------------------------------------------------

  /** At `i` a brace closes at depth zero. */
  predicate ClosesAt(text: string, i: nat)
    requires i < |text|
  {
    Closes(After(BEGIN, text[..i], 0), text[i])
  }

  function StartBefore(text: string, i: nat): Option<nat>
    requires i <= |text|
  {
    After(BEGIN, text[..i], 0).start
  }

  lemma {:induction false} StartIsBefore(s: Scan, text: string, at: nat)
    requires s.start.Some? ==> s.start.value < at
    ensures var r := After(s, text, at); r.start.Some? ==> r.start.value < at + |text|
    decreases |text|
  {
    if text != "" {
      StartIsBefore(Step(s, text[0], at), text[1..], at + 1);
    }
  }

  /** What is tried at a closing brace: the text from the brace that opened last at depth zero. */
  function Candidate(text: string, i: nat): string
    requires i < |text| && ClosesAt(text, i)
  {
    StartIsBefore(BEGIN, text[..i], 0);
    text[StartBefore(text, i).value..i + 1]
  }

  /** What is tried at `i` parses, and nothing tried before does. */
  ghost predicate IsFirstAt<V>(text: string, parse: string -> Option<V>, i: nat) {
    && i < |text| && ClosesAt(text, i) && parse(Candidate(text, i)).Some?
    && forall k: nat :: k < i && ClosesAt(text, k) ==> parse(Candidate(text, k)).None?
  }

  /** The first candidate that parses, if any does. */
  ghost predicate IsFirstParsed<V>(text: string, parse: string -> Option<V>, found: Option<V>) {
    match found
    case Some(_) => exists i: nat :: IsFirstAt(text, parse, i) && parse(Candidate(text, i)) == found
    case None => forall k: nat :: k < |text| && ClosesAt(text, k) ==> parse(Candidate(text, k)).None?
  }

  method ExtractJsonObject<V>(text: string, parse: string -> Option<V>) returns (found: Option<V>)
    ensures IsFirstParsed(text, parse, found)
  {
    var start: Option<nat>, depth: nat, inStr, escape := None, 0, false, false;
    assert text[..0] == "";
    for i := 0 to |text|
      invariant Scan(start, depth, inStr, escape) == After(BEGIN, text[..i], 0)
      invariant forall k: nat :: k < i && ClosesAt(text, k) ==> parse(Candidate(text, k)).None?
    {
      var b := text[i];
      StepAfter(text, i);
      if inStr {
        if escape {
          escape := false;
        } else if b == '\\' {
          escape := true;
        } else if b == '"' {
          inStr := false;
        }
      } else if b == '"' {
        inStr := true;
      } else if b == '{' {
        if depth == 0 {
          start := Some(i);
        }
        depth := depth + 1;
      } else if b == '}' {
        depth := if depth == 0 then 0 else depth - 1;
        if depth == 0 && start.Some? {
          StartIsBefore(BEGIN, text[..i], 0);
          assert ClosesAt(text, i) && Candidate(text, i) == text[start.value..i + 1];
          var value := parse(text[start.value..i + 1]);
          if value.Some? {
            assert IsFirstAt(text, parse, i);
            return value;
          }
        }
      }
    }
    found := None;
  }

  lemma StepAfter(text: string, i: nat)
    requires i < |text|
    ensures After(BEGIN, text[..i + 1], 0) == Step(After(BEGIN, text[..i], 0), text[i], i)
  {
    assert text[..i + 1] == text[..i] + [text[i]];
    AfterAppend(BEGIN, text[..i], [text[i]], 0);
    assert [text[i]][1..] == "";
  }

  /** Quiet text has no closing brace to try. */
  lemma {:induction false} QuietHasNone(text: string, from: nat, to: nat, k: nat)
    requires from <= k < to <= |text| && Quiet(After(BEGIN, text[..from], 0), text[from..to], from)
    ensures !ClosesAt(text, k)
  {
    assert text[from..to] == text[from..k] + text[k..to] && text[..k] == text[..from] + text[from..k];
    AfterAppend(BEGIN, text[..from], text[from..k], 0);
    AfterAppend(After(BEGIN, text[..from], 0), text[from..k], text[k..to], from);
    assert text[k..to][0] == text[k];
  }

  /** Text that leaves the scan outside strings and braces. */
  predicate EndsOutside(prose: string) {
    After(BEGIN, prose, 0).depth == 0 && !After(BEGIN, prose, 0).inStr
  }

  /** Such text, with nothing in it that parses. */
  ghost predicate LeavesScanOutside<V>(prose: string, parse: string -> Option<V>) {
    && EndsOutside(prose)
    && forall k: nat :: k < |prose| && ClosesAt(prose, k) ==> parse(Candidate(prose, k)).None?
  }

  /** Nothing before `n` is touched by what comes after. */
  lemma SameBefore(prose: string, more: string, k: nat)
    requires k < |prose|
    ensures ClosesAt(prose + more, k) <==> ClosesAt(prose, k)
    ensures ClosesAt(prose, k) ==> Candidate(prose + more, k) == Candidate(prose, k)
  {
    assert (prose + more)[..k] == prose[..k];
    StartIsBefore(BEGIN, prose[..k], 0);
  }

  /** The scan escapes only inside strings. */
  lemma {:induction false} EscapeIsInside(s: Scan, text: string, at: nat)
    requires s.escape ==> s.inStr
    ensures After(s, text, at).escape ==> After(s, text, at).inStr
    decreases |text|
  {
    if text != "" {
      EscapeIsInside(Step(s, text[0], at), text[1..], at + 1);
    }
  }

  /** The object's last brace closes at depth zero, what is tried there is the object, and no brace inside
      the object closes before. */
  lemma ObjectCloses(prose: string, json: J.Value, rest: string)
    requires json.Obj? && J.Valid(json) && EndsOutside(prose)
    ensures var text, last := prose + (J.Print(json) + rest), |prose + J.Print(json)| - 1;
            && |prose| <= last < |text| && ClosesAt(text, last) && Candidate(text, last) == J.Print(json)
            && forall k: nat :: |prose| <= k < last ==> !ClosesAt(text, k)
  {
    hide After, Quiet, J.PrintMembers;
    var s := After(BEGIN, prose, 0);
    var body := "{" + json.space + J.PrintMembers(json.members);
    var text := prose + (J.Print(json) + rest);
    var n, last := |prose|, |prose| + |body|;
    assert J.Print(json) == body + "}";
    EscapeIsInside(BEGIN, prose, 0);
    ObjectBody(s, json.space, json.members, n);
    assert text == prose + body + "}" + rest;
    Cuts(prose, body, "}" + rest);
    assert text == prose + body + ("}" + rest);
    AfterAppend(BEGIN, prose, body, 0);
    assert text[last] == '}' && text[n..last + 1] == body + "}";
    forall k: nat | n <= k < last
      ensures !ClosesAt(text, k)
    {
      QuietHasNone(text, n, last, k);
    }
  }

  lemma Cuts(a: string, b: string, c: string)
    ensures (a + b + c)[..|a|] == a && (a + b + c)[..|a + b|] == a + b && (a + b + c)[|a|..|a + b|] == b
  {
  }

  /** Behind such text the object is what is found, whatever its strings hold and whatever follows. */
  lemma ObjectIsFound<V>(prose: string, json: J.Value, rest: string, parse: string -> Option<V>, found: Option<V>)
    requires json.Obj? && J.Valid(json) && parse(J.Print(json)).Some?
    requires LeavesScanOutside(prose, parse)
    requires IsFirstParsed(prose + J.Print(json) + rest, parse, found)
    ensures found == parse(J.Print(json))
  {
    hide After, J.Print, ClosesAt;
    var more := J.Print(json) + rest;
    assert prose + J.Print(json) + rest == prose + more;
    var text, last := prose + more, |prose + J.Print(json)| - 1;
    ObjectCloses(prose, json, rest);
    forall k: nat | k < last && ClosesAt(text, k)
      ensures parse(Candidate(text, k)).None?
    {
      if k < |prose| {
        SameBefore(prose, more, k);
      }
    }
    assert ClosesAt(text, last);
  }

  /** Prose without quotes and braces is such text, so the first object behind it is found. */
  lemma ObjectAfterPlainProseIsFound<V>(prose: string, json: J.Value, rest: string, parse: string -> Option<V>,
                                        found: Option<V>)
    requires Neutral(prose) && json.Obj? && J.Valid(json) && parse(J.Print(json)).Some?
    requires IsFirstParsed(prose + J.Print(json) + rest, parse, found)
    ensures found == parse(J.Print(json))
  {
    NeutralPasses(BEGIN, prose, 0);
    forall k: nat | k < |prose|
      ensures !ClosesAt(prose, k)
    {
      assert prose[..0] == "" && prose[0..|prose|] == prose;
      QuietHasNone(prose, 0, |prose|, k);
    }
    ObjectIsFound(prose, json, rest, parse, found);
  }

  // ---- exactly when -------------------------------------------------------------------------------------------------

  /** The start of the scan is a brace that was read at depth zero and outside strings. */
  lemma {:induction false} StartWasOpened(text: string, k: nat, p: nat)
    requires k <= |text| && StartBefore(text, k) == Some(p)
    ensures p < k && text[p] == '{' && EndsOutside(text[..p])
  {
    assert text[..0] == "";
    if k > 0 {
      StepAfter(text, k - 1);
      if StartBefore(text, k - 1) == Some(p) {
        StartWasOpened(text, k - 1, p);
      }
    }
  }

  /** The object at its own place is tried at all exactly when the text in front of it leaves the scan outside
      strings and braces. */
  lemma ObjectIsTriedIff(prose: string, json: J.Value, rest: string)
    requires json.Obj? && J.Valid(json)
    ensures var text := prose + (J.Print(json) + rest);
            (exists k: nat :: k < |text| && ClosesAt(text, k) && StartBefore(text, k) == Some(|prose|))
            <==> EndsOutside(prose)
  {
    hide After, J.Print, ClosesAt, EndsOutside;
    var text := prose + (J.Print(json) + rest);
    assert text[..|prose|] == prose;
    if k: nat :| k < |text| && ClosesAt(text, k) && StartBefore(text, k) == Some(|prose|) {
      StartWasOpened(text, k, |prose|);
    }
    if EndsOutside(prose) {
      ObjectCloses(prose, json, rest);
      StartOfObject(prose, json, rest);
    }
  }

  lemma StartOfObject(prose: string, json: J.Value, rest: string)
    requires json.Obj? && J.Valid(json) && EndsOutside(prose)
    ensures var text, last := prose + (J.Print(json) + rest), |prose + J.Print(json)| - 1;
            0 <= last < |text| && ClosesAt(text, last) && StartBefore(text, last) == Some(|prose|)
  {
    hide After, J.Print;
    ObjectCloses(prose, json, rest);
    var text, last := prose + (J.Print(json) + rest), |prose + J.Print(json)| - 1;
    StartIsBefore(BEGIN, text[..last], 0);
    assert |Candidate(text, last)| == |J.Print(json)|;
  }

  /** The object at its own place is what is returned exactly when, in addition, nothing tried in the text in
      front of it parses. */
  lemma ObjectIsReturnedIff<V>(prose: string, json: J.Value, rest: string, parse: string -> Option<V>)
    requires json.Obj? && J.Valid(json) && parse(J.Print(json)).Some?
    ensures var text := prose + (J.Print(json) + rest);
            (exists k: nat :: IsFirstAt(text, parse, k) && StartBefore(text, k) == Some(|prose|)
                              && Candidate(text, k) == J.Print(json))
            <==> LeavesScanOutside(prose, parse)
  {
    hide After, J.Print, ClosesAt, EndsOutside;
    var more := J.Print(json) + rest;
    var text, last := prose + more, |prose + J.Print(json)| - 1;
    assert text[..|prose|] == prose;
    if k: nat :|
        IsFirstAt(text, parse, k) && StartBefore(text, k) == Some(|prose|) && Candidate(text, k) == J.Print(json) {
      StartWasOpened(text, k, |prose|);
      forall e: nat | e < |prose| && ClosesAt(prose, e)
        ensures parse(Candidate(prose, e)).None?
      {
        SameBefore(prose, more, e);
      }
    }
    if LeavesScanOutside(prose, parse) {
      ObjectCloses(prose, json, rest);
      StartOfObject(prose, json, rest);
      forall e: nat | e < last && ClosesAt(text, e)
        ensures parse(Candidate(text, e)).None?
      {
        if e < |prose| {
          SameBefore(prose, more, e);
        }
      }
      assert IsFirstAt(text, parse, last);
    }
  }

  /** An odd quote in the prose hides every brace up to the next quote: here the object is missed. */
  lemma LoneQuoteHidesTheObject<V>(parse: string -> Option<V>, found: Option<V>)
    requires IsFirstParsed("5\" {}", parse, found)
    ensures found == None
  {
    var text := "5\" {}";
    forall k: nat | k < |text|
      ensures !ClosesAt(text, k)
    {
      StepAfter(text, 0);
      StepAfter(text, 1);
      StepAfter(text, 2);
      StepAfter(text, 3);
      assert text[..0] == "";
    }
  }
}

// What the scan for an object knows at any point of a text, said without the scan: inside a string until its first
// quote that no backslash escapes, at the depth the braces outside strings leave, and since the last brace that was
// opened at depth zero.
module ScanLaws {
  import opened Ledger
  import opened Extract

  /** Opening braces less closing ones. */
  function Balance(text: string): int {
    if text == "" then 0
    else (if text[0] == '{' then 1 else if text[0] == '}' then -1 else 0) + Balance(text[1..])
  }

  /** Outside strings the depth follows the braces, and a brace too many leaves it at zero: it is the greatest of the
      balance from here on and of those of the ends of the text. */
  lemma {:induction false} DepthOfPlain(s: Scan, text: string, at: nat)
    requires !s.inStr && !s.escape && '"' !in text
    ensures var r := After(s, text, at);
            && !r.inStr && !r.escape
            && r.depth >= s.depth + Balance(text)
            && (forall k :: 0 <= k <= |text| ==> r.depth >= Balance(text[k..]))
            && (r.depth == s.depth + Balance(text) || exists k :: 0 <= k <= |text| && r.depth == Balance(text[k..]))
    decreases |text|
  {
    if text == "" {
      assert text[0..] == "";
    } else {
      var next, rest := Step(s, text[0], at), text[1..];
      assert text[0] in text && forall c :: c in rest ==> c in text;
      DepthOfPlain(next, rest, at + 1);
      var r := After(s, text, at);
      assert forall k :: 1 <= k <= |text| ==> text[k..] == rest[k - 1..];
      assert text[0..] == text;
      assert rest[0..] == rest && text[1..] == rest;
      if k :| 0 <= k <= |rest| && r.depth == Balance(rest[k..]) {
        assert text[k + 1..] == rest[k..];
      }
    }
  }

  /** The number of backslashes at the end of the text. */
  function Backslashes(text: string): nat {
    if text != "" && text[|text| - 1] == '\\' then 1 + Backslashes(text[..|text| - 1]) else 0
  }

  /** The quote at `i` ends the string: an even number of backslashes precedes it. */
  predicate EndsString(text: string, i: nat) {
    i < |text| && text[i] == '"' && Backslashes(text[..i]) % 2 == 0
  }

  /** Inside a string nothing counts until a quote that ends it. */
  lemma {:induction false} StringRuns(s: Scan, body: string, at: nat)
    requires s.inStr && !s.escape && forall i: nat :: !EndsString(body, i)
    ensures After(s, body, at) == s.(escape := Backslashes(body) % 2 == 1)
    decreases |body|
  {
    if body != "" {
      var n := |body| - 1;
      forall i: nat
        ensures !EndsString(body[..n], i)
      {
        assert i < n ==> body[..n][..i] == body[..i];
        assert EndsString(body[..n], i) ==> EndsString(body, i);
      }
      StringRuns(s, body[..n], at);
      assert body == body[..n] + [body[n]];
      AfterAppend(s, body[..n], [body[n]], at);
      assert [body[n]][1..] == "";
      assert !EndsString(body, n);
    }
  }

  /** There it is left, as it was entered. */
  lemma StringEnds(s: Scan, body: string, at: nat)
    requires !s.inStr && !s.escape && (forall i: nat :: !EndsString(body, i)) && Backslashes(body) % 2 == 0
    ensures After(s, "\"" + body + "\"", at) == s
  {
    StringRuns(s.(inStr := true), body, at + 1);
    AfterAppend(s, "\"", body + "\"", at);
    AfterAppend(s.(inStr := true), body, "\"", at + 1);
    assert "\"" + (body + "\"") == "\"" + body + "\"";
    assert "\""[1..] == "";
  }

  /** Some opening brace was read at depth zero and outside strings at `p`. */
  predicate OpensAt(text: string, p: nat) {
    p < |text| && text[p] == '{' && EndsOutside(text[..p])
  }

  /** The start of what is tried is the last brace that was opened at depth zero, whatever came of it. */
  lemma {:induction false} StartIff(text: string, k: nat, p: nat)
    requires k <= |text|
    ensures StartBefore(text, k) == Some(p) <==>
              p < k && OpensAt(text, p) && forall q: nat :: p < q < k ==> !OpensAt(text, q)
    ensures StartBefore(text, k).None? <==> forall q: nat :: q < k ==> !OpensAt(text, q)
    decreases k
  {
    assert text[..0] == "";
    if k > 0 {
      StepAfter(text, k - 1);
      StartIff(text, k - 1, p);
      EscapeIsInside(BEGIN, text[..k - 1], 0);
      assert StartBefore(text, k) == if OpensAt(text, k - 1) then Some(k - 1) else StartBefore(text, k - 1);
      var last: nat := k - 1;
      assert OpensAt(text, last) || !OpensAt(text, last);
    }
  }

  /** A candidate ends at a closing brace outside strings after which the depth is zero, once some brace was opened
      at depth zero. */
  lemma ClosesIff(text: string, i: nat)
    requires i < |text|
    ensures ClosesAt(text, i) <==>
              text[i] == '}' && EndsOutside(text[..i + 1]) && exists p: nat :: p < i && OpensAt(text, p)
  {
    StepAfter(text, i);
    StartIff(text, i, 0);
    if text[i] == '}' && After(BEGIN, text[..i], 0).inStr {
      EscapeIsInside(BEGIN, text[..i], 0);
    }
  }
}

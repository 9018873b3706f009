// Strings as the program handles them: splitting into lines, trimming, joining, UTF-8 lengths.
module Text {
  /** The first `n` characters of `s` are `prefix`. */
  predicate StartsWith(s: string, prefix: string) {
    prefix <= s
  }

  /** Index of the first newline, or `|s|`. */
  function NewlineAt(s: string): (i: nat)
    ensures i <= |s|
    ensures forall k :: 0 <= k < i ==> s[k] != '\n'
    ensures i < |s| ==> s[i] == '\n'
  {
    if s == [] || s[0] == '\n' then 0 else 1 + NewlineAt(s[1..])
  }

  /** A carriage return that directly precedes the newline belongs to the terminator. */
  function StripCr(s: string): string {
    if s != [] && s[|s| - 1] == '\r' then s[..|s| - 1] else s
  }

  /** Lines without their terminators; a final terminator does not open another line, and a
      carriage return is dropped only in front of a newline. */
  function Lines(s: string): (lines: seq<string>) {
    if s == [] then []
    else
      var i := NewlineAt(s);
      if i == |s| then [s] else [StripCr(s[..i])] + Lines(s[i + 1..])
  }

  function FirstLine(s: string): string {
    if s == [] then "" else Lines(s)[0]
  }

  function Join(lines: seq<string>): string {
    if lines == [] then ""
    else if |lines| == 1 then lines[0]
    else lines[0] + "\n" + Join(lines[1..])
  }

  /** The characters with the Unicode White_Space property. */
  predicate IsSpace(c: char) {
    || '\t' <= c <= '\r'
    || c == ' '
    || c == '\U{85}'
    || c == '\U{A0}'
    || c == '\U{1680}'
    || '\U{2000}' <= c <= '\U{200A}'
    || c == '\U{2028}'
    || c == '\U{2029}'
    || c == '\U{202F}'
    || c == '\U{205F}'
    || c == '\U{3000}'
  }

  function TrimStart(s: string): string {
    if s != [] && IsSpace(s[0]) then TrimStart(s[1..]) else s
  }

  function TrimEnd(s: string): string {
    if s != [] && IsSpace(s[|s| - 1]) then TrimEnd(s[..|s| - 1]) else s
  }

  function Trim(s: string): string {
    TrimEnd(TrimStart(s))
  }

  function Digit(d: nat): char
    requires d < 10
  {
    "0123456789"[d]
  }

  function DecimalNat(n: nat): string {
    if n < 10 then [Digit(n)] else DecimalNat(n / 10) + [Digit(n % 10)]
  }

  function Decimal(n: int): string {
    if n < 0 then "-" + DecimalNat(-n) else DecimalNat(n)
  }

  // ---- what these are -----------------------------------------------------------------------------------------

  /** The first line is the text up to its first newline, without a carriage return in front of that. */
  lemma FirstLineMeans(s: string) returns (n: nat)
    ensures n <= |s| && '\n' !in s[..n] && (n < |s| ==> s[n] == '\n')
    ensures FirstLine(s) == if n < |s| && n > 0 && s[n - 1] == '\r' then s[..n - 1] else s[..n]
  {
    n := NewlineAt(s);
    if s != [] {
      assert s[..|s|] == s;
      assert n == |s| ==> Lines(s) == [s];
    }
  }

  /** Trimmed text is the text without the white space at its ends. */
  lemma TrimMeans(s: string) returns (from: nat, to: nat)
    ensures from <= to <= |s| && Trim(s) == s[from..to]
    ensures forall i :: 0 <= i < from || to <= i < |s| ==> IsSpace(s[i])
    ensures from < to ==> !IsSpace(s[from]) && !IsSpace(s[to - 1])
  {
    hide IsSpace;
    from := TrimStartMeans(s);
    var n := TrimEndMeans(s[from..]);
    to := from + n;
    assert s[from..][..n] == s[from..to];
    assert forall i :: to <= i < |s| ==> s[i] == s[from..][i - from];
  }

  lemma {:induction false} TrimStartMeans(s: string) returns (n: nat)
    ensures n <= |s| && TrimStart(s) == s[n..]
    ensures (forall i :: 0 <= i < n ==> IsSpace(s[i])) && (n < |s| ==> !IsSpace(s[n]))
  {
    hide IsSpace;
    n := 0;
    if s != [] && IsSpace(s[0]) {
      var m := TrimStartMeans(s[1..]);
      n := m + 1;
      assert forall i :: 1 <= i < n ==> s[i] == s[1..][i - 1];
    }
  }

  lemma {:induction false} TrimEndMeans(s: string) returns (n: nat)
    ensures n <= |s| && TrimEnd(s) == s[..n]
    ensures (forall i :: n <= i < |s| ==> IsSpace(s[i])) && (n > 0 ==> !IsSpace(s[n - 1]))
  {
    hide IsSpace;
    n := |s|;
    if s != [] && IsSpace(s[|s| - 1]) {
      n := TrimEndMeans(s[..|s| - 1]);
      assert s[..|s| - 1][..n] == s[..n];
    } else {
      assert s[..n] == s;
    }
  }

  function DigitValue(c: char): nat
    requires '0' <= c <= '9'
  {
    var n: int := c as int;
    n - 48
  }

  function ValueOf(digits: string): nat
    requires forall i :: 0 <= i < |digits| ==> '0' <= digits[i] <= '9'
  {
    if digits == [] then 0
    else ValueOf(digits[..|digits| - 1]) * 10 + DigitValue(digits[|digits| - 1])
  }

  /** A printed number is its digits: they give the number back, and the first is no zero unless it is all. */
  lemma {:induction false} DecimalMeans(n: nat)
    ensures DecimalNat(n) != [] && forall i :: 0 <= i < |DecimalNat(n)| ==> '0' <= DecimalNat(n)[i] <= '9'
    ensures ValueOf(DecimalNat(n)) == n && (n > 0 ==> DecimalNat(n)[0] != '0')
    ensures Decimal(n) == DecimalNat(n) && (n > 0 ==> Decimal(-(n as int)) == "-" + DecimalNat(n))
    decreases n
  {
    var digits := DecimalNat(n);
    if n < 10 {
      assert digits[..0] == [];
    } else {
      DecimalMeans(n / 10);
      assert digits[..|digits| - 1] == DecimalNat(n / 10);
      assert digits[0] == DecimalNat(n / 10)[0];
    }
  }
}

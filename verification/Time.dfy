// Time and counted quantities with machine widths: signed 64-bit timestamps,
// unsigned 64-bit spans and token counts, unsigned 32-bit attempt counters. All arithmetic saturates.
module Time {
  const I64_MAX: int := 0x7FFF_FFFF_FFFF_FFFF
  const I64_MIN: int := -0x8000_0000_0000_0000
  const U64_MAX: int := 0xFFFF_FFFF_FFFF_FFFF
  const U32_MAX: int := 0xFFFF_FFFF

  type Timestamp = t: int | I64_MIN <= t <= I64_MAX
  type Duration = d: int | 0 <= d <= U64_MAX
  type Tokens = n: int | 0 <= n <= U64_MAX
  type Attempts = n: int | 0 <= n <= U32_MAX

  function Min(a: int, b: int): (m: int)
    ensures m <= a && m <= b && (m == a || m == b)
  {
    if a <= b then a else b
  }

  /** Clamp an exact result into the signed 64-bit range. */
  function ClampI64(n: int): Timestamp {
    if n < I64_MIN then I64_MIN else if n > I64_MAX then I64_MAX else n
  }

  /** Elapsed time from `earlier` to `later`; zero if `earlier` is later. */
  function Since(later: Timestamp, earlier: Timestamp): Duration {
    var diff := ClampI64(later - earlier);
    if diff < 0 then 0 else diff
  }

  /** `t + d`: the span is narrowed to signed 64 bits first, then added saturating. */
  function Plus(t: Timestamp, d: Duration): Timestamp {
    ClampI64(t + Min(d, I64_MAX))
  }

  /** Saturating 64-bit addition, used for tokens and for wall clock. */
  function AddU64(a: Tokens, b: Tokens): Tokens {
    Min(a + b, U64_MAX)
  }

  /** Saturating increment of an attempt counter. */
  function Incr(n: Attempts): Attempts {
    Min(n + 1, U32_MAX)
  }

  /** Terms added one after the other, each sum saturated before the next. */
  function FoldU64(terms: seq<Tokens>): Tokens {
    if terms == [] then 0 else AddU64(FoldU64(terms[..|terms| - 1]), terms[|terms| - 1])
  }

  function Sum(terms: seq<Tokens>): nat {
    if terms == [] then 0 else Sum(terms[..|terms| - 1]) + terms[|terms| - 1]
  }

  /** Whatever the saturation on the way, the fold is the exact sum, saturated once. */
  lemma {:induction false} SaturatedFold(terms: seq<Tokens>)
    ensures FoldU64(terms) == Min(Sum(terms), U64_MAX)
  {
    if terms != [] {
      SaturatedFold(terms[..|terms| - 1]);
    }
  }
}

/** The capped exponential delay between reconnect attempts, in 64-bit integers
    and, for the jitter, in doubles. */
module Backoff {
  import opened Common
  import opened Doubles

  const MaxInt64 := 0x7fff_ffff_ffff_ffff

  /** time.Duration: an operation that left the range would not verify. */
  newtype Duration = x: int | -MaxInt64 - 1 <= x <= MaxInt64

  datatype Policy = Policy(base: Duration, max: Duration, jitter: Duration)

  function ClampNonNegative(d: Duration): (r: Duration)
    ensures r >= 0
  {
    if d < 0 then 0 else d
  }

  function ClampAttempt(attempt: int): (r: nat) {
    if attempt < 0 then 0 else attempt
  }

  /** The addition read from eight random bytes, or none: the low 53 bits over
      2^53 times the jitter, in doubles. */
  function JitterFraction(jitter: Duration, seed: Option<nat>): (r: int)
    ensures r >= 0 && (jitter > 0 ==> r < jitter as int) && (jitter <= 0 ==> r == 0)
  {
    if jitter <= 0 || seed.None? then 0
    else
      FractionBelow(seed.value % Precision, jitter as int);
      Fraction(seed.value % Precision, jitter as int)
  }

  /** `d` is a double as near to n as any. */
  ghost predicate Nearest(n: nat, d: int) {
    IsDouble(d) && forall e {:trigger IsDouble(e)} :: IsDouble(e) ==> n - d <= Abs(n - e) && d - n <= Abs(n - e)
  }

  /** Both conversions of the computation: of the jitter, and of its product. */
  ghost predicate TwiceRounded(jitter: nat, s: nat, r: int) {
    exists f: nat, p: nat :: Nearest(jitter, f) && Nearest(s * f, p) && r == p / Precision
  }

  lemma NearestRounded(n: nat)
    ensures Nearest(n, Rounded(n))
  {
    hide IsDouble, Rounded;
    forall e | IsDouble(e) ensures n - Rounded(n) <= Abs(n - e) && Rounded(n) - n <= Abs(n - e) {
      RoundedNearest(n, e);
    }
    RoundedIsDouble(n);
  }

  /** The jitter added is the fraction as doubles compute it, whatever the jitter
      and the bytes read; below 2^53 nanoseconds that is within one nanosecond of
      the exact fraction, and without bytes nothing is added. */
  lemma JitterIsTheFraction(jitter: Duration, seed: nat)
    requires jitter > 0
    ensures TwiceRounded(jitter as int, seed % Precision, JitterFraction(jitter, Some(seed)))
    ensures jitter as int < Precision ==>
              Abs(JitterFraction(jitter, Some(seed)) - (seed % Precision) * jitter as int / Precision) <= 1
    ensures JitterFraction(jitter, None) == 0
  {
    FractionIsRounded(jitter as int, seed % Precision);
    if jitter as int < Precision { FractionNear(seed % Precision, jitter as int); }
    hide TwiceRounded, Fraction;
  }

  lemma FractionIsRounded(j: nat, s: nat)
    requires s < Precision
    ensures TwiceRounded(j, s, Fraction(s, j))
  {
    hide Rounded, Nearest;
    NearestRounded(j);
    NearestRounded(s * Rounded(j));
    Witness(j, s, Rounded(j), Rounded(s * Rounded(j)));
  }

  lemma Witness(j: nat, s: nat, f: nat, p: nat)
    requires Nearest(j, f) && Nearest(s * f, p)
    ensures TwiceRounded(j, s, p / Precision)
  {
    hide Nearest;
  }

  /** The closed form. */
  function Delay(b: Policy, attempt: int, seed: Option<nat>): int {
    var base, max, jitter := ClampNonNegative(b.base) as int, ClampNonNegative(b.max) as int,
                             ClampNonNegative(b.jitter) as int;
    if max <= jitter then max
    else Min(base * Pow2(ClampAttempt(attempt)), max - jitter) + JitterFraction(ClampNonNegative(b.jitter), seed)
  }

  lemma ScaledMonotone(base: int, i: nat, j: nat)
    requires base >= 0 && i <= j
    ensures base * Pow2(i) <= base * Pow2(j)
  {
    Pow2Monotone(i, j);
    MulMonotone(base, Pow2(i), Pow2(j));
  }

  lemma Doubled(base: int, i: nat)
    ensures base * Pow2(i + 1) == 2 * (base * Pow2(i))
  {
  }

  /** The doubling loop computes the closed form without ever overflowing. */
  method Next(b: Policy, attempt: int, seed: Option<nat>) returns (d: Duration)
    ensures d as int == Delay(b, attempt, seed)
    ensures 0 <= d as int <= ClampNonNegative(b.max) as int
  {
    var tries := ClampAttempt(attempt);
    var base, max, jitter := ClampNonNegative(b.base), ClampNonNegative(b.max), ClampNonNegative(b.jitter);
    if max <= jitter {
      return max;
    }
    var room := max - jitter;
    var delay := base;
    var i := 0;
    while i < tries && delay < room
      invariant 0 <= i <= tries && delay >= 0
      invariant delay as int == base as int * Pow2(i) || (delay == room && base as int * Pow2(i) >= room as int)
    {
      Doubled(base as int, i);
      if delay > (MaxInt64 / 2) as Duration {
        delay := room;
        i := i + 1;
        break;
      }
      delay := delay * 2;
      i := i + 1;
    }
    ScaledMonotone(base as int, i, tries);
    if delay > room {
      delay := room;
    }
    var extra := JitterFraction(jitter, seed);
    d := delay + extra as Duration;
  }

  /** The exponential part never falls from one attempt to the next, and with
      the jitter never leaves [0, Max]. */
  lemma DelayGrows(b: Policy, attempt: int, later: int, seed: Option<nat>)
    requires attempt <= later
    ensures Delay(b, attempt, seed) <= Delay(b, later, seed) <= ClampNonNegative(b.max) as int
    ensures 0 <= Delay(b, attempt, seed)
  {
    ScaledMonotone(ClampNonNegative(b.base) as int, ClampAttempt(attempt), ClampAttempt(later));
    MulMonotone(ClampNonNegative(b.base) as int, 0, Pow2(ClampAttempt(attempt)));
  }

  /** Past the cap an attempt more changes nothing, however many attempts. */
  lemma DelaySaturates(b: Policy, attempt: int, later: int, seed: Option<nat>)
    requires 0 <= attempt <= later && b.max > b.jitter >= 0
    requires ClampNonNegative(b.base) as int * Pow2(attempt) >= b.max as int - b.jitter as int
    ensures Delay(b, later, seed) == Delay(b, attempt, seed)
            == b.max as int - b.jitter as int + JitterFraction(b.jitter, seed)
  {
    ScaledMonotone(ClampNonNegative(b.base) as int, attempt, later);
  }

  /** Twice the delay before, never more than the room. */
  function Doubling(base: int, room: int, attempts: nat): int {
    if attempts == 0 then Min(base, room) else Min(2 * Doubling(base, room, attempts - 1), room)
  }

  lemma {:induction false} ClosedForm(base: int, room: int, attempts: nat)
    requires base >= 0 && room >= 0
    ensures Doubling(base, room, attempts) == Min(base * Pow2(attempts), room)
  {
    if attempts > 0 {
      ClosedForm(base, room, attempts - 1);
      Doubled(base, attempts - 1);
    }
  }

  /** Whatever the policy and the attempt: the delay starts at the base, doubles
      with each attempt up to what the jitter leaves of the maximum, and has the
      jitter added; a jitter that leaves nothing makes it the maximum. */
  lemma DelayDoubles(b: Policy, attempt: int, seed: Option<nat>)
    ensures var base, max, jitter := if b.base < 0 then 0 else b.base as int, if b.max < 0 then 0 else b.max as int,
                                     if b.jitter < 0 then 0 else b.jitter as int;
            Delay(b, attempt, seed) ==
              if max <= jitter then max
              else Doubling(base, max - jitter, if attempt < 0 then 0 else attempt)
                   + JitterFraction(if b.jitter < 0 then 0 else b.jitter, seed)
  {
    var base, max, jitter := ClampNonNegative(b.base) as int, ClampNonNegative(b.max) as int,
                             ClampNonNegative(b.jitter) as int;
    if max > jitter { ClosedForm(base, max - jitter, ClampAttempt(attempt)); }
  }
}

/** The C runtime's `rand()` as an explicit, caller-supplied stream.

    After a seed is chosen, the program sees the fixed sequence of values
    rand() returns; the model takes that sequence as a total function from
    call number to sample, together with a cursor that says how many values
    have been consumed. Every generator returns the advanced cursor. */
module Random {

  /** RAND_MAX of the Microsoft C runtime the program is built against.
      No property of the model depends on its value beyond being positive. */
  const RandMax: int := 32767

  /** One value returned by rand(). */
  type Sample = r: int | 0 <= r <= RandMax

  /** All values rand() returns after one srand call, in call order. */
  type Stream = nat -> Sample

  /** `rand() / (float)RAND_MAX` for the call numbered i. */
  function Unit(s: Stream, i: nat): (u: real)
    ensures 0.0 <= u <= 1.0
  {
    s(i) as real / RandMax as real
  }

  /** `(rand() / (float)RAND_MAX - 0.5f) * span`: a draw centred on zero. */
  function Centered(s: Stream, i: nat, span: real): (v: real)
    requires span >= 0.0
    ensures -span / 2.0 <= v <= span / 2.0
  {
    (Unit(s, i) - 0.5) * span
  }

  /** `base + (rand() / (float)RAND_MAX) * span`: a draw in [base, base + span]. */
  function Above(s: Stream, i: nat, base: real, span: real): (v: real)
    requires span >= 0.0
    ensures base <= v <= base + span
  {
    FractionOf(Unit(s, i), span);
    base + Unit(s, i) * span
  }

  /** A fraction u in [0, 1] of a non-negative span lies within the span. */
  lemma FractionOf(u: real, span: real)
    requires 0.0 <= u <= 1.0 && span >= 0.0
    ensures 0.0 <= u * span <= span
  {
    assert span - u * span == (1.0 - u) * span;
  }

  /** min(a, b) <= v <= max(a, b): v lies between a and b, in either order. */
  predicate Between(v: real, a: real, b: real) {
    && (a <= b ==> a <= v <= b)
    && (b <= a ==> b <= v <= a)
  }

  /** `lo + (rand() / (float)RAND_MAX) * (hi - lo)`: a draw between lo and hi. */
  function Lerp(s: Stream, i: nat, lo: real, hi: real): (v: real)
    ensures Between(v, lo, hi)
  {
    var offset := Portion(Unit(s, i), hi - lo);
    ShiftBetween(offset, lo, hi);
    lo + offset
  }

  /** The fraction u of a span of either sign. */
  function Portion(u: real, span: real): (r: real)
    requires 0.0 <= u <= 1.0
    ensures Between(r, 0.0, span)
  {
    FractionOfSigned(u, span);
    u * span
  }

  /** An offset between 0 and hi - lo, added to lo, lies between lo and hi. */
  lemma ShiftBetween(x: real, lo: real, hi: real)
    requires Between(x, 0.0, hi - lo)
    ensures Between(lo + x, lo, hi)
  {
  }

  /** A fraction u in [0, 1] of a span of either sign lies between 0 and the span. */
  lemma FractionOfSigned(u: real, span: real)
    requires 0.0 <= u <= 1.0
    ensures Between(u * span, 0.0, span)
  {
    if span >= 0.0 {
      FractionOf(u, span);
    } else {
      FractionOf(u, -span);
      assert u * span == -(u * -span);
    }
  }
}

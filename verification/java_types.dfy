/**
 * Java's primitive `int` (32-bit two's complement, wrapping silently on
 * overflow) and the stand-in for `java.time.LocalDateTime`.
 */
module JavaTypes {

  /** A point in time. The model only copies and compares timestamps. */
  type DateTime = int

  const Modulus: int := 0x1_0000_0000
  const MinInt: int := -0x8000_0000
  const MaxInt: int := 0x7fff_ffff

  /** x fits in a Java `int`. */
  predicate IsInt(x: int) {
    MinInt <= x <= MaxInt
  }

  /**
   * The value Java's `int` arithmetic yields when the exact result is x:
   * the unique `int` congruent to x modulo 2^32.
   */
  function Wrap(x: int): (r: int)
    ensures IsInt(r)
    ensures (x - r) % Modulus == 0
    ensures IsInt(x) ==> r == x
  {
    (x - MinInt) % Modulus + MinInt
  }

  /** Wrap only depends on the residue of its argument modulo 2^32. */
  lemma WrapCongruent(x: int, y: int)
    requires (x - y) % Modulus == 0
    ensures Wrap(x) == Wrap(y)
  {
    var k := (x - y) / Modulus;
    assert x - MinInt == (y - MinInt) + k * Modulus;
  }

  /** Adding to an already wrapped value is the same as wrapping once at the end. */
  lemma WrapAdd(x: int, y: int)
    ensures Wrap(Wrap(x) + y) == Wrap(x + y)
  {
    WrapCongruent(Wrap(x) + y, x + y);
  }

  /** Wrapping an operand first does not change a wrapped sum. */
  lemma WrapAddWrapped(x: int, y: int)
    ensures Wrap(x + Wrap(y)) == Wrap(x + y)
  {
    var k := (y - Wrap(y)) / Modulus;
    assert y - Wrap(y) == k * Modulus;
    assert (x + y) - (x + Wrap(y)) == k * Modulus;
    WrapCongruent(x + Wrap(y), x + y);
  }

  /** Two wrapped additions in a row equal one addition of the wrapped sum. */
  lemma WrapAddTwice(x: int, a: int, b: int)
    ensures Wrap(Wrap(x + a) + b) == Wrap(x + Wrap(a + b))
  {
    WrapAdd(x + a, b);
    WrapAddWrapped(x, a + b);
  }
}

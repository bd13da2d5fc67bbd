/** Two's-complement 32-bit arithmetic: what C# `int` addition, subtraction and
    `Interlocked.Add` compute on unbounded integers. */
module Int32 {
  type int32 = x: int | -0x8000_0000 <= x < 0x8000_0000

  predicate Fits(x: int) {
    -0x8000_0000 <= x < 0x8000_0000
  }

  /** The 32-bit word that `x` becomes. */
  function Wrap(x: int): (r: int32)
    ensures Fits(x) ==> r == x
  {
    (x + 0x8000_0000) % 0x1_0000_0000 - 0x8000_0000
  }

  /** C# negation: the smallest integer is its own negative. */
  function Negate(x: int): int32 {
    Wrap(-x)
  }

  predicate Congruent(a: int, b: int) {
    (a - b) % 0x1_0000_0000 == 0
  }

  /** Two integers wrap to the same word exactly when they are congruent. */
  lemma WrapEqual(a: int, b: int)
    ensures Wrap(a) == Wrap(b) <==> Congruent(a, b)
  {
    if Wrap(a) == Wrap(b) {
      var q := Laps(a);
      var r := Laps(b);
      assert a - b == (q - r) * 0x1_0000_0000;
    } else if Congruent(a, b) {
      var k := (a - b) / 0x1_0000_0000;
      assert a == b + k * 0x1_0000_0000;
      WrapLaps(b, k);
    }
  }

  /** `Wrap` removes a whole number of laps around the 32-bit range. */
  lemma Laps(x: int) returns (q: int)
    ensures Wrap(x) == x - q * 0x1_0000_0000
  {
    q := (x + 0x8000_0000) / 0x1_0000_0000;
  }

  lemma WrapLaps(x: int, q: int)
    ensures Wrap(x + q * 0x1_0000_0000) == Wrap(x)
  {
    var k := Laps(x);
    var j := Laps(x + q * 0x1_0000_0000);
    SameWord(Wrap(x + q * 0x1_0000_0000), Wrap(x), q - j + k);
  }

  /** Two 32-bit values a whole number of laps apart are the same. */
  lemma SameWord(a: int32, b: int32, laps: int)
    requires a - b == laps * 0x1_0000_0000
    ensures a == b
  {
  }

  /** A wrapped operand may be replaced by the true one: only the final sum matters. */
  lemma WrapLeft(a: int, b: int)
    ensures Wrap(Wrap(a) + b) == Wrap(a + b)
  {
    var q := Laps(a);
    WrapLaps(a + b, -q);
  }

  lemma WrapBoth(a: int, b: int)
    ensures Wrap(Wrap(a) + Wrap(b)) == Wrap(a + b)
  {
    WrapLeft(a, Wrap(b));
    WrapLeft(b, a);
  }

  lemma WrapShift(a: int, d: int)
    ensures Wrap(a) == Wrap(a + d) <==> Congruent(d, 0)
  {
    WrapEqual(a + d, a);
  }

  /** What the word is, in the integers: the same up to a multiple of 2^32, and in range. */
  lemma WrapIsTheWord(x: int)
    ensures (Wrap(x) - x) % 0x1_0000_0000 == 0 && -0x8000_0000 <= Wrap(x) < 0x8000_0000
    ensures (Negate(x) + x) % 0x1_0000_0000 == 0
  {
  }
}

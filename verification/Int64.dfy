/** Go's signed 64-bit integers: wrap-around and truncating division. */
module Int64 {

  const TWO64: int := 0x1_0000_0000_0000_0000
  const MAX: int := 0x7FFF_FFFF_FFFF_FFFF
  const MIN: int := -0x8000_0000_0000_0000

  predicate InRange(x: int) { MIN <= x <= MAX }

  /** The value a 64-bit register holds after computing `x`: whole turns are taken off. */
  function Wrap(x: int): (r: int)
    ensures InRange(r)
    ensures InRange(x) ==> r == x
    decreases if InRange(x) then 0 else if x < 0 then -x else x
  {
    if InRange(x) then x else if x < 0 then Wrap(x + TWO64) else Wrap(x - TWO64)
  }

  /** Wrapping takes off `k` turns. */
  lemma {:induction false} Turns(x: int) returns (k: int)
    ensures x == Wrap(x) + k * TWO64
    decreases if InRange(x) then 0 else if x < 0 then -x else x
  {
    if InRange(x) {
      k := 0;
    } else if x < 0 {
      k := Turns(x + TWO64);
      k := k - 1;
    } else {
      k := Turns(x - TWO64);
      k := k + 1;
    }
  }

  /** Numbers that differ by whole turns wrap to the same value. */
  lemma SameResidue(x: int, y: int, k: int)
    requires x == y + k * TWO64
    ensures Wrap(x) == Wrap(y)
  {
    var i := Turns(x);
    var j := Turns(y);
    assert Wrap(x) - Wrap(y) == (k - i + j) * TWO64;
    assert k - i + j == 0;
  }

  lemma WrapAdd(x: int, y: int)
    ensures Wrap(Wrap(x) + y) == Wrap(x + y)
  {
    var k := Turns(x);
    SameResidue(x + y, Wrap(x) + y, k);
  }

  lemma WrapMul(x: int, m: int)
    ensures Wrap(Wrap(x) * m) == Wrap(x * m)
  {
    var k := Turns(x);
    assert x * m == Wrap(x) * m + (k * m) * TWO64 by {
      assert x * m == (Wrap(x) + k * TWO64) * m;
    }
    SameResidue(x * m, Wrap(x) * m, k * m);
  }

  /** Go's `/`: rounds toward zero. */
  function TruncDiv(a: int, b: int): int
    requires b > 0
  {
    if a >= 0 then a / b else -((-a) / b)
  }
}

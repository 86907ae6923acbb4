/** Scalar helpers over `real` and over naturals, and the floating-point library routines that the
    ray tracer calls but whose code is not part of this model.

    The model computes over exact reals instead of `float`. `std::sqrt`, `pow`,
    `std::tan`, `cos` and `sin` are not expressible exactly, so each becomes a
    field of `Intrinsics`, passed as a parameter, and `Sound` states the only
    facts about them that the proofs rely on. */
module RealMath {

  datatype Intrinsics = Intrinsics(
    sqrt: real -> real,
    pow: (real, real) -> real,
    tan: real -> real,
    sin: real -> real,
    cos: real -> real)

  /** The assumptions made about the library routines: `sqrt` is the
      non-negative square root of a non-negative argument, and `pow` of a
      non-negative base is non-negative. Both hold of the real functions, so
      this predicate is satisfiable. */
  ghost predicate Sound(m: Intrinsics)
  {
    (forall x :: 0.0 <= x ==> 0.0 <= m.sqrt(x) && Sq(m.sqrt(x)) == x) &&
    (forall b, e :: 0.0 <= b ==> 0.0 <= m.pow(b, e))
  }

  /** The square of a real. Every square in the model is written through this
      function, so that the solver reasons about it as one term. */
  function Sq(a: real): real
  {
    a * a
  }

  /** A square is never negative and is positive away from zero. */
  lemma SqSign(a: real)
    ensures 0.0 <= Sq(a)
    ensures a != 0.0 ==> 0.0 < Sq(a)
  {
    if a < 0.0 {
      calc { Sq(a); (-a) * (-a); > 0.0; }
    } else if a > 0.0 {
      calc { Sq(a); a * a; > 0.0; }
    }
  }

  lemma SqZero()
    ensures Sq(0.0) == 0.0
  {
  }

  /** The square of a product, and of a quotient. */
  lemma SqTimes(a: real, b: real)
    ensures Sq(a * b) == Sq(a) * Sq(b)
  {
  }

  lemma SqDiv(a: real, b: real)
    requires b != 0.0
    ensures Sq(a / b) * Sq(b) == Sq(a)
  {
    calc {
      Sq(a / b) * Sq(b);
      (a / b) * (a / b) * (b * b);
      ((a / b) * b) * ((a / b) * b);
      a * a;
    }
  }

  /** Two non-negative reals with the same square are equal. */
  lemma SqInjective(a: real, b: real)
    requires 0.0 <= a && 0.0 <= b && Sq(a) == Sq(b)
    ensures a == b
  {
    if a < b {
      SqStrictlyIncreasing(a, b);
    } else if b < a {
      SqStrictlyIncreasing(b, a);
    }
  }

  /** Squaring is strictly increasing on the non-negative reals. */
  lemma SqStrictlyIncreasing(a: real, b: real)
    requires 0.0 <= a < b
    ensures Sq(a) < Sq(b)
  {
    MulMonotone(a, a, b);
    MulMonotone(b, a, b);
    calc {
      Sq(a);
      a * a;
    <=
      a * b;
    ==
      b * a;
    <
      b * b;
      Sq(b);
    }
  }

  /** Multiplying by a non-negative factor keeps order, and by a positive
      one keeps strict order. */
  lemma MulMonotone(c: real, x: real, y: real)
    requires 0.0 <= c && x <= y
    ensures c * x <= c * y
    ensures 0.0 < c && x < y ==> c * x < c * y
  {
    assert c * y - c * x == c * (y - x);
  }

  /** `std::min(a, b)`: returns `a` unless `b < a`. */
  function Min(a: real, b: real): real
  {
    if b < a then b else a
  }

  /** `std::max(a, b)`: returns `a` unless `a < b`. */
  function Max(a: real, b: real): real
  {
    if a < b then b else a
  }

  /** `fabs`. */
  function Abs(x: real): real
  {
    if x < 0.0 then -x else x
  }

  /** Under `Sound`, the square root of 1 is 1. */
  lemma SqrtOne(m: Intrinsics)
    requires Sound(m)
    ensures m.sqrt(1.0) == 1.0
  {
    assert Sq(m.sqrt(1.0)) == 1.0 == Sq(1.0);
    SqInjective(m.sqrt(1.0), 1.0);
  }

  /** Under `Sound`, the square root of a square of a non-negative value is that value. */
  lemma SqrtOfSq(m: Intrinsics, a: real)
    requires Sound(m) && 0.0 <= a
    ensures m.sqrt(Sq(a)) == a
  {
    SqSign(a);
    SqInjective(m.sqrt(Sq(a)), a);
  }

  // ------------------------------------------------ integer division

  /** Integer division bounds a number between two multiples. */
  lemma DivBounds(x: nat, s: nat)
    requires 1 <= s
    ensures (x / s) * s <= x < (x / s + 1) * s
  {
    assert x == (x / s) * s + x % s;
  }

  /** Multiplying by a natural keeps order. */
  lemma MulLe(a: nat, b: nat, s: nat)
    requires a <= b
    ensures a * s <= b * s
  {
    assert b * s == a * s + (b - a) * s;
  }

  /** A number between c*s and (c+1)*s has quotient c. */
  lemma DivUnique(x: nat, s: nat, c: nat)
    requires 1 <= s && c * s <= x < (c + 1) * s
    ensures x / s == c
  {
    DivBounds(x, s);
    var q := x / s;
    if q < c {
      MulLe(q + 1, c, s);
      assert false;
    } else if c < q {
      MulLe(c + 1, q, s);
      assert false;
    }
  }
}

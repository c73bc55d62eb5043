/** Sine and cosine as abstract functions. `Valid` lists the only facts about them that any proof
    uses; the real sine, cosine and pi satisfy all of them. */
module Trigonometry {
  import opened RealMath

  datatype Trig = Trig(sin: real -> real, cos: real -> real, pi: real) {

    ghost predicate AdditionAt(x: real, y: real) {
      && sin(x + y) == Dot(sin(x), cos(y), cos(x), sin(y))
      && cos(x + y) == Dot(cos(x), cos(y), -sin(x), sin(y))
    }

    ghost predicate BoundsAt(h: real) {
      && Abs(sin(h)) <= 1.0
      && Abs(cos(h)) <= 1.0
      && Abs(sin(h)) <= Abs(h)
      && 6.0 * Abs(sin(h) - h) <= Cube(Abs(h))
      && 0.0 <= 2.0 * (1.0 - cos(h)) <= Square(h)
    }

    ghost predicate Valid() {
      && 3.14 < pi < 3.15
      && sin(0.0) == 0.0 && cos(0.0) == 1.0
      && sin(pi / 2.0) == 1.0 && cos(pi / 2.0) == 0.0
      && (forall x, y :: AdditionAt(x, y))
      && (forall h :: BoundsAt(h))
    }

    lemma Addition(x: real, y: real)
      requires Valid()
      ensures sin(x + y) == Dot(sin(x), cos(y), cos(x), sin(y))
      ensures cos(x + y) == Dot(cos(x), cos(y), -sin(x), sin(y))
    {
      assert AdditionAt(x, y);
    }

    lemma Bounds(h: real)
      requires Valid()
      ensures Abs(sin(h)) <= 1.0 && Abs(cos(h)) <= 1.0
      ensures Abs(sin(h)) <= Abs(h)
      ensures 6.0 * Abs(sin(h) - h) <= Cube(Abs(h))
      ensures 0.0 <= 2.0 * (1.0 - cos(h)) <= Square(h)
    {
      assert BoundsAt(h);
    }

    /** A quarter turn exchanges the two functions. */
    lemma QuarterTurn(x: real)
      requires Valid()
      ensures sin(x + pi / 2.0) == cos(x)
      ensures cos(x + pi / 2.0) == -sin(x)
    {
      Addition(x, pi / 2.0);
    }

    lemma HalfTurn(x: real)
      requires Valid()
      ensures sin(x + pi) == -sin(x)
      ensures cos(x + pi) == -cos(x)
    {
      QuarterTurn(x);
      QuarterTurn(x + pi / 2.0);
      assert x + pi / 2.0 + pi / 2.0 == x + pi;
    }

    lemma FullTurn(x: real)
      requires Valid()
      ensures sin(x + 2.0 * pi) == sin(x)
      ensures cos(x + 2.0 * pi) == cos(x)
    {
      HalfTurn(x);
      HalfTurn(x + pi);
      assert x + pi + pi == x + 2.0 * pi;
    }

    /** Bounds on a short angle, in terms of the square of a longer one. */
    lemma ShortAngle(h: real, eta: real)
      requires Valid() && Abs(h) <= eta <= 1.0
      ensures 0.0 <= 1.0 - cos(h) <= Square(eta) / 2.0
      ensures Abs(sin(h) - h) <= Square(eta) / 6.0
    {
      hide Valid, Cube, Square;
      Bounds(h);
      AbsPowers(h, eta);
    }

    /** Over a short step k the sine moves by k cos(x), up to the square of k. */
    lemma SineStep(x: real, k: real)
      requires Valid() && Abs(k) <= 1.0
      ensures Abs(sin(x + k) - Dot(1.0, sin(x), k, cos(x))) <= Square(k)
    {
      hide Valid, Square, Dot;
      Addition(x, k);
      Bounds(x);
      AbsSquare(k);
      ShortAngle(k, Abs(k));
      StepRemainder(sin(x), cos(x), sin(k), cos(k), k, Square(k));
    }
  }

  lemma AbsSquare(h: real)
    ensures Square(Abs(h)) == Square(h)
  {}

  lemma AbsPowers(h: real, eta: real)
    requires Abs(h) <= eta <= 1.0
    ensures Square(h) <= Square(eta)
    ensures Cube(Abs(h)) <= Square(eta)
  {
    var a := Abs(h);
    var a2 := a * a;
    SquareMono(a, eta);
    MulUnit(a, a2);
    AbsSquare(h);
  }

  lemma TwoProducts(s: real, p: real, c: real, q: real, m: real)
    requires Abs(s) <= 1.0 && Abs(c) <= 1.0 && Abs(p) <= m / 2.0 && Abs(q) <= m / 2.0
    ensures Abs(Dot(s, p, c, q)) <= m
  {
    var one, half := 1.0, m / 2.0;
    MulBound(s, p, one, half);
    MulBound(c, q, one, half);
  }

  lemma StepRemainder(s: real, c: real, sk: real, ck: real, k: real, m: real)
    requires Abs(s) <= 1.0 && Abs(c) <= 1.0
    requires Abs(ck - 1.0) <= m / 2.0 && Abs(sk - k) <= m / 2.0
    ensures Abs(Dot(s, ck, c, sk) - Dot(1.0, s, k, c)) <= m
  {
    TwoProducts(s, ck - 1.0, c, sk - k, m);
    assert Dot(s, ck - 1.0, c, sk - k) == Dot(s, ck, c, sk) - Dot(1.0, s, k, c);
  }
}

/** Real arithmetic shared by the trajectory modules: the clamping helpers of the C++ standard
    library and a few one-step facts about products, kept apart so that no proof has to find
    them among nonlinear terms. */
module RealMath {

  function Abs(x: real): real { if x < 0.0 then -x else x }

  function Min(x: real, y: real): real { if y < x then y else x }

  function Max(x: real, y: real): real { if x < y then y else x }

  function Clamp(x: real, lo: real, hi: real): real
    requires lo <= hi
  {
    if x < lo then lo else if hi < x then hi else x
  }

  /** Products and mixtures under a name, so that proofs can treat them as single terms. */
  function Square(x: real): real { x * x }

  function Cube(x: real): real { x * x * x }

  function Dot(a: real, b: real, c: real, d: real): real { a * b + c * d }

  function Mul(x: real, y: real): real { x * y }

  function Lerp(theta: real, a: real, b: real): real { (1.0 - theta) * a + theta * b }

  lemma MulMono(x: real, y: real, z: real)
    requires x <= y && 0.0 <= z
    ensures x * z <= y * z
  {}

  lemma MulUnit(x: real, z: real)
    requires x <= 1.0 && 0.0 <= z
    ensures x * z <= z
  {}

  lemma MulNonNeg(x: real, y: real)
    requires 0.0 <= x && 0.0 <= y
    ensures 0.0 <= x * y
  {}

  lemma MulBound(x: real, y: real, p: real, q: real)
    requires Abs(x) <= p && Abs(y) <= q
    ensures Abs(x * y) == Abs(x) * Abs(y) <= p * q
  {
    MulMono(Abs(x), p, Abs(y));
    MulMono(Abs(y), q, p);
  }

  /** The same facts about named products. */
  lemma NamedBound(x: real, y: real, p: real, q: real)
    requires Abs(x) <= p && Abs(y) <= q
    ensures Abs(Mul(x, y)) <= Mul(p, q)
  {
    MulBound(x, y, p, q);
  }

  lemma NamedMono(x: real, y: real, z: real)
    requires x <= y && 0.0 <= z
    ensures Mul(x, z) <= Mul(y, z)
  {
    MulMono(x, y, z);
  }

  lemma NamedNonNeg(x: real, y: real)
    requires 0.0 <= x && 0.0 <= y
    ensures 0.0 <= Mul(x, y)
  {}

  /** A mixture of two points of an interval stays in it. */
  lemma Between(s: real, x: real, y: real, lo: real, hi: real)
    requires 0.0 <= s <= 1.0 && lo <= x <= hi && lo <= y <= hi
    ensures lo <= x + Mul(s, y - x) <= hi
  {
    MixtureForm(s, x, y);
    MixtureForm(s, lo, lo);
    MixtureForm(s, hi, hi);
    hide Mul;
    NamedMono(lo, x, 1.0 - s);
    NamedMono(lo, y, s);
    NamedMono(x, hi, 1.0 - s);
    NamedMono(y, hi, s);
  }

  lemma MixtureForm(s: real, x: real, y: real)
    ensures x + Mul(s, y - x) == Mul(x, 1.0 - s) + Mul(y, s)
    ensures Mul(s, 0.0) == 0.0
  {}

  lemma SquareMono(x: real, y: real)
    requires 0.0 <= x <= y
    ensures 0.0 <= x * x <= y * y
  {}

  lemma DivideMono(x: real, y: real, d: real)
    requires x <= y && 0.0 < d
    ensures x / d <= y / d
  {
    assert (y - x) / d >= 0.0;
    assert y / d - x / d == (y - x) / d;
  }
}

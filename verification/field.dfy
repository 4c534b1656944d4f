/** The element type G the semigroup engine is instantiated with.

    The engine in semigroups.h is generic over any G offering `One()`/`Zero()`
    and an associative `*`/`+`.  This model fixes G to the prime field GF(7)
    (the field the repository's curve tests are written over), so that the
    semigroup laws the engine relies on are proved here rather than assumed.
    Nothing the engine proves depends on the value 7: only the lemmas below
    are used. */
module Field {

  const Modulus: int := 7

  /** A field element in canonical form. */
  type Elem = x: int | 0 <= x < Modulus

  /** Additive identity, `G::Zero()`. */
  function Zero(): Elem { 0 }

  /** Multiplicative identity, `G::One()`. */
  function One(): Elem { 1 }

  /** `a + b` in the field. */
  function Add(a: Elem, b: Elem): Elem { (a + b) % Modulus }

  /** `a * b` in the field. */
  function Mul(a: Elem, b: Elem): Elem { (a * b) % Modulus }

  /** Adding a multiple of Modulus does not change a residue. */
  lemma ModShift(k: int, y: int)
    ensures (Modulus * k + y) % Modulus == y % Modulus
  {
  }

  /** Reducing the left operand first does not change a sum modulo Modulus. */
  lemma ModAddLeft(x: int, y: int)
    ensures ((x % Modulus) + y) % Modulus == (x + y) % Modulus
  {
  }

  /** Reducing the left factor first does not change a product modulo Modulus. */
  lemma ModMulLeft(x: int, y: int)
    ensures ((x % Modulus) * y) % Modulus == (x * y) % Modulus
  {
    var q, r := x / Modulus, x % Modulus;
    assert x == Modulus * q + r;
    assert x * y == Modulus * (q * y) + r * y by {
      assert (Modulus * q + r) * y == Modulus * q * y + r * y;
    }
    ModShift(q * y, r * y);
  }

  /** Associativity of `+`: the semigroup law of the additive side. */
  lemma AddAssociative(a: Elem, b: Elem, c: Elem)
    ensures Add(Add(a, b), c) == Add(a, Add(b, c))
  {
    ModAddLeft(a + b, c);
    ModAddLeft(b + c, a);
    assert a + (b + c) == (b + c) + a == (a + b) + c;
  }

  /** Zero() is a two-sided identity of `+`. */
  lemma AddIdentity(a: Elem)
    ensures Add(a, Zero()) == a && Add(Zero(), a) == a
  {
  }

  lemma ProductRotate(a: int, b: int, c: int)
    ensures (a * b) * c == (b * c) * a
  {
  }

  /** Associativity of `*`: the semigroup law of the multiplicative side. */
  lemma MulAssociative(a: Elem, b: Elem, c: Elem)
    ensures Mul(Mul(a, b), c) == Mul(a, Mul(b, c))
  {
    var ab, bc := a * b, b * c;
    assert Mul(Mul(a, b), c) == ((ab % Modulus) * c) % Modulus;
    ModMulLeft(ab, c);
    assert Mul(a, Mul(b, c)) == ((bc % Modulus) * a) % Modulus;
    ModMulLeft(bc, a);
    ProductRotate(a, b, c);
  }

  /** One() is a two-sided identity of `*`. */
  lemma MulIdentity(a: Elem)
    ensures Mul(a, One()) == a && Mul(One(), a) == a
  {
  }
}

/** The multiplicative half of the exponentiation engine
    (`MultiplicativeSemigroup<G>` in tachyon/math/base/semigroups.h),
    instantiated at G = GF(7).

    The OpenMP loop over chunks of `[0, size)` is read as an ordinary loop; the
    number of elements per chunk, which the source obtains from
    `GetNumElementsPerThread`, is the caller-supplied `chunk >= 1`. */
module MultiplicativeSemigroup {
  import opened Field
  import opened Bits

  /** Reference slow path: `g` multiplied by itself `e` times. */
  function Power(g: Elem, e: nat): Elem
  {
    if e == 0 then One() else Mul(Power(g, e - 1), g)
  }

  /** g^(a+b) = g^a * g^b; it rests on associativity of `*`. */
  lemma {:induction false} PowerAdd(g: Elem, a: nat, b: nat)
    ensures Power(g, a + b) == Mul(Power(g, a), Power(g, b))
    decreases b
  {
    if b == 0 {
      MulIdentity(Power(g, a));
    } else {
      PowerAdd(g, a, b - 1);
      MulAssociative(Power(g, a), Power(g, b - 1), g);
    }
  }

  /** `a.Square()`: whichever capability G offers, the result is a². */
  function Square(a: Elem): (r: Elem)
    ensures r == Power(a, 2)
  {
    MulIdentity(a);
    assert Power(a, 1) == Mul(One(), a);
    Mul(a, a)
  }

  /** `DoPow`: left-to-right square-and-multiply over the exponent's bits,
      most significant first, leading zeros skipped.  The accumulator starts
      at One(); for e = 0 the loop body never runs. */
  method DoPow(g: Elem, e: nat) returns (r: Elem)
    ensures r == Power(g, e)
    ensures e == 0 ==> r == One()
  {
    var bits := BitsBE(e);
    r := One();
    var i := 0;
    while i < |bits|
      invariant 0 <= i <= |bits|
      invariant r == Power(g, ValueBE(bits[..i]))
    {
      ghost var v := ValueBE(bits[..i]);
      assert bits[..i + 1][..i] == bits[..i];
      PowerAdd(g, v, v);
      r := Square(r);
      if bits[i] {
        r := Mul(r, g);
      }
      i := i + 1;
    }
    assert bits[..i] == bits;
    ValueOfBitsBE(e);
  }

  /** `Pow(exponent)`: both overloads (a `BigInt<N>`, or a scalar converted to
      one) forward to DoPow. */
  method Pow(g: Elem, e: nat) returns (r: Elem)
    ensures r == Power(g, e)
  {
    r := DoPow(g, e);
  }

  /** Entry i of a table of powers of two of `base` is base^(2^i), for the
      first `n` entries. */
  ghost predicate IsPowersOfTwoTable(table: seq<Elem>, base: Elem, n: nat)
  {
    n <= |table| && forall i :: 0 <= i < n ==> table[i] == Power(base, Pow2(i))
  }

  /** Product of the table entries at the set positions of a little-endian
      bit sequence, in index order. */
  function SelectedProduct(table: seq<Elem>, bits: seq<bool>): Elem
    requires |bits| <= |table|
  {
    if bits == [] then One()
    else if bits[|bits| - 1] then Mul(SelectedProduct(table, bits[..|bits| - 1]), table[|bits| - 1])
    else SelectedProduct(table, bits[..|bits| - 1])
  }

  /** With a correct table, the selected product is the power the bits denote. */
  lemma {:induction false} SelectedProductIsPower(table: seq<Elem>, base: Elem, bits: seq<bool>)
    requires IsPowersOfTwoTable(table, base, |bits|)
    ensures SelectedProduct(table, bits) == Power(base, ValueLE(bits))
    decreases |bits|
  {
    if bits != [] {
      var n := |bits| - 1;
      SelectedProductIsPower(table, base, bits[..n]);
      if bits[n] {
        PowerAdd(base, ValueLE(bits[..n]), Pow2(n));
      }
    }
  }

  /** `PowWithTable`: scan the exponent least significant bit first and
      multiply in `powers_of_2[i]` for each set bit i; no squaring.  Every
      index the scan visits must be inside the table. */
  method PowWithTable(powersOfTwo: seq<Elem>, e: nat, ghost base: Elem) returns (r: Elem)
    requires |BitsLE(e)| <= |powersOfTwo|
    ensures r == SelectedProduct(powersOfTwo, BitsLE(e))
    ensures IsPowersOfTwoTable(powersOfTwo, base, |BitsLE(e)|) ==> r == Power(base, e)
  {
    var bits := BitsLE(e);
    r := One();
    var i := 0;
    while i < |bits|
      invariant 0 <= i <= |bits|
      invariant r == SelectedProduct(powersOfTwo, bits[..i])
    {
      assert bits[..i + 1][..i] == bits[..i];
      if bits[i] {
        r := Mul(r, powersOfTwo[i]);
      }
      i := i + 1;
    }
    assert bits[..i] == bits;
    if IsPowersOfTwoTable(powersOfTwo, base, |bits|) {
      SelectedProductIsPower(powersOfTwo, base, bits);
      ValueOfBitsLE(e);
    }
  }

  /** `GetSuccessivePowers(size, g, c)`: `[c, c*g, c*g², ..., c*g^(size-1)]`.
      Each chunk starts from one `Pow` and continues by `*= g`; the result is
      the same for every chunk size. */
  method GetSuccessivePowers(size: nat, g: Elem, c: Elem, chunk: nat) returns (ret: seq<Elem>)
    requires chunk >= 1
    ensures |ret| == size
    ensures forall j :: 0 <= j < size ==> ret[j] == Mul(c, Power(g, j))
  {
    var out := new Elem[size];
    var i := 0;
    while i < size
      invariant forall t :: 0 <= t < i && t < size ==> out[t] == Mul(c, Power(g, t))
    {
      var p := Pow(g, i);
      var pow := Mul(c, p);
      var j := i;
      while j < i + chunk && j < size
        invariant i <= j <= size
        invariant pow == Mul(c, Power(g, j))
        invariant forall t :: 0 <= t < j ==> out[t] == Mul(c, Power(g, t))
      {
        out[j] := pow;
        MulAssociative(c, Power(g, j), g);
        assert Mul(pow, g) == Mul(c, Power(g, j + 1));
        pow := Mul(pow, g);
        j := j + 1;
      }
      i := i + chunk;
    }
    ret := out[..];
  }
}

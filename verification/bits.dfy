/** The bit sequences the exponentiation loops walk over.

    `BigInt<N>` is used by the engine only through two bit iterators:
    `BitIteratorBE::begin(&e, true)` walks the bits most significant first,
    starting at the highest set bit, and `BitIteratorLE::end(&e, true)` walks
    them least significant first, stopping after the highest set bit.  Both
    are modelled over the exponent's value as a `nat`. */
module Bits {

  /** 2^i. */
  function Pow2(i: nat): (r: nat)
    ensures r >= 1
  {
    if i == 0 then 1 else 2 * Pow2(i - 1)
  }

  function BitValue(b: bool): nat { if b then 1 else 0 }

  /** Bits of `e`, most significant first, without leading zeros. */
  function BitsBE(e: nat): (bits: seq<bool>)
    ensures bits == [] <==> e == 0
    ensures bits != [] ==> bits[0]
    decreases e
  {
    if e == 0 then [] else BitsBE(e / 2) + [e % 2 == 1]
  }

  /** The number a most-significant-first bit sequence denotes. */
  function ValueBE(bits: seq<bool>): nat
  {
    if bits == [] then 0
    else 2 * ValueBE(bits[..|bits| - 1]) + BitValue(bits[|bits| - 1])
  }

  /** Reading back the big-endian bits of `e` gives `e`. */
  lemma {:induction false} ValueOfBitsBE(e: nat)
    ensures ValueBE(BitsBE(e)) == e
    decreases e
  {
    if e > 0 {
      var bits := BitsBE(e);
      assert bits[..|bits| - 1] == BitsBE(e / 2);
      ValueOfBitsBE(e / 2);
    }
  }

  /** Bits of `e`, least significant first, ending at the highest set bit. */
  function BitsLE(e: nat): (bits: seq<bool>)
    ensures bits == [] <==> e == 0
    ensures bits != [] ==> bits[|bits| - 1]
    ensures |bits| == |BitsBE(e)|
    decreases e
  {
    if e == 0 then [] else [e % 2 == 1] + BitsLE(e / 2)
  }

  /** The number a least-significant-first bit sequence denotes: bit i weighs 2^i. */
  function ValueLE(bits: seq<bool>): nat
  {
    if bits == [] then 0
    else ValueLE(bits[..|bits| - 1]) + (if bits[|bits| - 1] then Pow2(|bits| - 1) else 0)
  }

  /** Prepending the lowest bit doubles the rest and adds that bit. */
  lemma {:induction false} ValueLECons(b: bool, s: seq<bool>)
    ensures ValueLE([b] + s) == BitValue(b) + 2 * ValueLE(s)
    decreases |s|
  {
    if s != [] {
      var t := [b] + s;
      assert t[..|t| - 1] == [b] + s[..|s| - 1];
      ValueLECons(b, s[..|s| - 1]);
    } else {
      assert [b] + s == [b];
      assert [b][..0] == [];
    }
  }

  /** Reading back the little-endian bits of `e` gives `e`. */
  lemma {:induction false} ValueOfBitsLE(e: nat)
    ensures ValueLE(BitsLE(e)) == e
    decreases e
  {
    if e > 0 {
      ValueLECons(e % 2 == 1, BitsLE(e / 2));
      ValueOfBitsLE(e / 2);
    }
  }
}

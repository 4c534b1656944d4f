/** The additive half of the exponentiation engine
    (`AdditiveSemigroup<G>` in tachyon/math/base/semigroups.h), instantiated
    at G = GF(7): scalar multiplication, successive multiples and the three
    multi-scalar-multiplication shapes.

    As on the multiplicative side, each OpenMP loop over chunks of
    `[0, size)` is an ordinary loop whose chunk length is the caller-supplied
    `chunk >= 1`. */
module AdditiveSemigroup {
  import opened Field
  import opened Bits

  /** Reference slow path: `g` added to itself `n` times, n·g. */
  function Multiple(g: Elem, n: nat): Elem
  {
    if n == 0 then Zero() else Add(Multiple(g, n - 1), g)
  }

  /** (a+b)·g = a·g + b·g; it rests on associativity of `+`. */
  lemma {:induction false} MultipleAdd(g: Elem, a: nat, b: nat)
    ensures Multiple(g, a + b) == Add(Multiple(g, a), Multiple(g, b))
    decreases b
  {
    if b == 0 {
      AddIdentity(Multiple(g, a));
    } else {
      MultipleAdd(g, a, b - 1);
      AddAssociative(Multiple(g, a), Multiple(g, b - 1), g);
    }
  }

  /** `a.Double()`: whichever capability G offers, the result is 2·a. */
  function Double(a: Elem): (r: Elem)
    ensures r == Multiple(a, 2)
  {
    AddIdentity(a);
    assert Multiple(a, 1) == Add(Zero(), a);
    Add(a, a)
  }

  /** `DoScalarMul`: left-to-right double-and-add over the scalar's bits,
      most significant first, leading zeros skipped.  The accumulator starts
      at Zero(); for s = 0 the loop body never runs. */
  method DoScalarMul(g: Elem, s: nat) returns (r: Elem)
    ensures r == Multiple(g, s)
    ensures s == 0 ==> r == Zero()
  {
    var bits := BitsBE(s);
    r := Zero();
    var i := 0;
    while i < |bits|
      invariant 0 <= i <= |bits|
      invariant r == Multiple(g, ValueBE(bits[..i]))
    {
      ghost var v := ValueBE(bits[..i]);
      assert bits[..i + 1][..i] == bits[..i];
      MultipleAdd(g, v, v);
      r := Double(r);
      if bits[i] {
        r := Add(r, g);
      }
      i := i + 1;
    }
    assert bits[..i] == bits;
    ValueOfBitsBE(s);
  }

  /** `ScalarMul(scalar)`: both overloads (a `BigInt<N>`, or a scalar
      converted to one) forward to DoScalarMul. */
  method ScalarMul(g: Elem, s: nat) returns (r: Elem)
    ensures r == Multiple(g, s)
  {
    r := DoScalarMul(g, s);
  }

  // ---------------------------------------------------------------------
  // Successive multiples

  /** The first index of the chunk holding index `j`, when `[0, ...)` is cut
      into chunks of `chunk` elements. */
  function ChunkStart(j: nat, chunk: nat): (s: nat)
    requires chunk >= 1
    ensures s <= j < s + chunk
    decreases j
  {
    if j < chunk then 0 else chunk + ChunkStart(j - chunk, chunk)
  }

  /** The chunk start of any index is itself a chunk start: one of the
      indices 0, chunk, 2·chunk, ... the outer loop visits. */
  lemma {:induction false} ChunkStartIsStart(j: nat, chunk: nat)
    requires chunk >= 1
    ensures ChunkStart(ChunkStart(j, chunk), chunk) == ChunkStart(j, chunk)
    decreases j
  {
    if j >= chunk {
      ChunkStartIsStart(j - chunk, chunk);
    }
  }

  /** Every index of the chunk that starts at `i` has `i` as its chunk start. */
  lemma {:induction false} ChunkStartInChunk(i: nat, chunk: nat, j: nat)
    requires chunk >= 1 && ChunkStart(i, chunk) == i && i <= j < i + chunk
    ensures ChunkStart(j, chunk) == i
    decreases i
  {
    if i >= chunk {
      ChunkStartInChunk(i - chunk, chunk, j - chunk);
    }
  }

  /** Entry `j` of `GetSuccessiveScalarMuls` as the code computes it: the
      chunk holding `j` starts at `c * (s·g)` for its first index `s`, and
      every later entry adds `g` once more. */
  function ScalarMulsEntry(g: Elem, c: Elem, chunk: nat, j: nat): Elem
    requires chunk >= 1
  {
    var s := ChunkStart(j, chunk);
    Add(Mul(c, Multiple(g, s)), Multiple(g, j - s))
  }

  /** With the default `c = One()` entry `j` is `j·g`, whatever the chunk size. */
  lemma {:induction false} ScalarMulsEntryWithOne(g: Elem, chunk: nat, j: nat)
    requires chunk >= 1
    ensures ScalarMulsEntry(g, One(), chunk, j) == Multiple(g, j)
  {
    var s := ChunkStart(j, chunk);
    var d: nat := j - s;
    MulIdentity(Multiple(g, s));
    MultipleAdd(g, s, d);
    assert s + d == j;
  }

  /** For another `c` the entries depend on the chunk size: with g = 1 and
      c = 2, entry 1 is 2 when every chunk holds one element and 1 when one
      chunk holds both; entry 0 is 0, not `c`. */
  lemma ScalarMulsEntryDependsOnChunk()
    ensures ScalarMulsEntry(1, 2, 1, 1) == 2
    ensures ScalarMulsEntry(1, 2, 2, 1) == 1
    ensures ScalarMulsEntry(1, 2, 2, 0) != 2
  {
    assert ChunkStart(0, 1) == 0 && ChunkStart(1, 1) == 1;
    assert ChunkStart(0, 2) == 0 && ChunkStart(1, 2) == 0;
    assert Multiple(1, 0) == 0;
    assert Multiple(1, 1) == 1;
    assert Mul(2, 1) == 2 && Mul(2, 0) == 0;
    assert Add(2, 0) == 2 && Add(0, 1) == 1 && Add(0, 0) == 0;
  }

  /** `GetSuccessiveScalarMuls(size, g, c)`, as written: each chunk starts
      from `c * ScalarMul(i)` and continues by `+= g`. */
  method GetSuccessiveScalarMuls(size: nat, g: Elem, c: Elem, chunk: nat) returns (ret: seq<Elem>)
    requires chunk >= 1
    ensures |ret| == size
    ensures forall j :: 0 <= j < size ==> ret[j] == ScalarMulsEntry(g, c, chunk, j)
    ensures c == One() ==> forall j :: 0 <= j < size ==> ret[j] == Multiple(g, j)
  {
    var out := new Elem[size];
    var i := 0;
    while i < size
      invariant ChunkStart(i, chunk) == i
      invariant forall t :: 0 <= t < i && t < size ==> out[t] == ScalarMulsEntry(g, c, chunk, t)
    {
      var m := ScalarMul(g, i);
      var scalarMul := Mul(c, m);
      AddIdentity(scalarMul);
      var j := i;
      while j < i + chunk && j < size
        invariant i <= j <= size
        invariant scalarMul == Add(Mul(c, m), Multiple(g, j - i))
        invariant forall t :: 0 <= t < j ==> out[t] == ScalarMulsEntry(g, c, chunk, t)
      {
        ChunkStartInChunk(i, chunk, j);
        out[j] := scalarMul;
        AddAssociative(Mul(c, m), Multiple(g, j - i), g);
        scalarMul := Add(scalarMul, g);
        j := j + 1;
      }
      i := i + chunk;
    }
    ret := out[..];
    if c == One() {
      forall j | 0 <= j < size
        ensures ret[j] == Multiple(g, j)
      {
        ScalarMulsEntryWithOne(g, chunk, j);
      }
    }
  }

  /** Entry `j` of `[c, c + g, c + 2·g, ...]`. */
  function ShiftedMultiple(c: Elem, g: Elem, j: nat): Elem
  {
    Add(c, Multiple(g, j))
  }

  /** Adding g to c + j·g gives c + (j+1)·g. */
  lemma ShiftedMultipleStep(c: Elem, g: Elem, j: nat)
    ensures Add(ShiftedMultiple(c, g, j), g) == ShiftedMultiple(c, g, j + 1)
  {
    AddAssociative(c, Multiple(g, j), g);
  }

  /** With the corrected default `c = Zero()`, entry j of the corrected list
      is what the code as written gives with its default `c = One()`, for
      every chunk size. */
  lemma CorrectedDefaultAgrees(g: Elem, chunk: nat, j: nat)
    requires chunk >= 1
    ensures ShiftedMultiple(Zero(), g, j) == ScalarMulsEntry(g, One(), chunk, j)
  {
    AddIdentity(Multiple(g, j));
    ScalarMulsEntryWithOne(g, chunk, j);
  }

  /** `GetSuccessiveScalarMuls` corrected to the additive analogue of
      GetSuccessivePowers: `[c, c + g, c + 2·g, ..., c + (size-1)·g]`.  Each chunk
      starts from `c + ScalarMul(i)` and continues by `+= g`; the result is
      the same for every chunk size. */
  method GetSuccessiveScalarMulsCorrected(size: nat, g: Elem, c: Elem, chunk: nat) returns (ret: seq<Elem>)
    requires chunk >= 1
    ensures |ret| == size
    ensures forall j :: 0 <= j < size ==> ret[j] == Add(c, Multiple(g, j))
  {
    var out := new Elem[size];
    var i := 0;
    while i < size
      invariant forall t :: 0 <= t < i && t < size ==> out[t] == ShiftedMultiple(c, g, t)
    {
      var m := ScalarMul(g, i);
      var scalarMul := Add(c, m);
      var j := i;
      while j < i + chunk && j < size
        invariant i <= j <= size
        invariant scalarMul == ShiftedMultiple(c, g, j)
        invariant forall t :: 0 <= t < j ==> out[t] == ShiftedMultiple(c, g, t)
      {
        out[j] := scalarMul;
        ShiftedMultipleStep(c, g, j);
        scalarMul := Add(scalarMul, g);
        j := j + 1;
      }
      i := i + chunk;
    }
    ret := out[..];
  }

  // ---------------------------------------------------------------------
  // Multi-scalar multiplication

  /** `MultiScalarMulMSMB`: outputs[j] = scalars[j]·bases[j].  Fails, writing
      nothing, when the three lengths differ or are zero. */
  method MultiScalarMulMSMB(scalars: seq<nat>, bases: seq<Elem>, outputs: array<Elem>, chunk: nat)
    returns (ok: bool)
    requires chunk >= 1
    modifies outputs
    ensures ok <==> |scalars| == |bases| && |scalars| == outputs.Length && outputs.Length != 0
    ensures !ok ==> outputs[..] == old(outputs[..])
    ensures ok ==> forall j :: 0 <= j < outputs.Length ==> outputs[j] == Multiple(bases[j], scalars[j])
  {
    var size := |scalars|;
    if size != |bases| { return false; }
    if size != outputs.Length { return false; }
    if size == 0 { return false; }
    var i := 0;
    while i < size
      invariant forall t :: 0 <= t < i && t < size ==> outputs[t] == Multiple(bases[t], scalars[t])
    {
      var j := i;
      while j < i + chunk && j < size
        invariant i <= j <= size
        invariant forall t :: 0 <= t < j ==> outputs[t] == Multiple(bases[t], scalars[t])
      {
        outputs[j] := ScalarMul(bases[j], scalars[j]);
        j := j + 1;
      }
      i := i + chunk;
    }
    ok := true;
  }

  /** `MultiScalarMulMSSB`: outputs[j] = scalars[j]·base.  Fails, writing
      nothing, when the lengths differ or are zero. */
  method MultiScalarMulMSSB(scalars: seq<nat>, base: Elem, outputs: array<Elem>, chunk: nat)
    returns (ok: bool)
    requires chunk >= 1
    modifies outputs
    ensures ok <==> |scalars| == outputs.Length && outputs.Length != 0
    ensures !ok ==> outputs[..] == old(outputs[..])
    ensures ok ==> forall j :: 0 <= j < outputs.Length ==> outputs[j] == Multiple(base, scalars[j])
  {
    var size := |scalars|;
    if size != outputs.Length { return false; }
    if size == 0 { return false; }
    var i := 0;
    while i < size
      invariant forall t :: 0 <= t < i && t < size ==> outputs[t] == Multiple(base, scalars[t])
    {
      var j := i;
      while j < i + chunk && j < size
        invariant i <= j <= size
        invariant forall t :: 0 <= t < j ==> outputs[t] == Multiple(base, scalars[t])
      {
        outputs[j] := ScalarMul(base, scalars[j]);
        j := j + 1;
      }
      i := i + chunk;
    }
    ok := true;
  }

  /** `MultiScalarMulSSMB`: outputs[j] = scalar·bases[j].  Fails, writing
      nothing, when the lengths differ or are zero. */
  method MultiScalarMulSSMB(scalar: nat, bases: seq<Elem>, outputs: array<Elem>, chunk: nat)
    returns (ok: bool)
    requires chunk >= 1
    modifies outputs
    ensures ok <==> |bases| == outputs.Length && outputs.Length != 0
    ensures !ok ==> outputs[..] == old(outputs[..])
    ensures ok ==> forall j :: 0 <= j < outputs.Length ==> outputs[j] == Multiple(bases[j], scalar)
  {
    var size := |bases|;
    if size != outputs.Length { return false; }
    if size == 0 { return false; }
    var i := 0;
    while i < size
      invariant forall t :: 0 <= t < i && t < size ==> outputs[t] == Multiple(bases[t], scalar)
    {
      var j := i;
      while j < i + chunk && j < size
        invariant i <= j <= size
        invariant forall t :: 0 <= t < j ==> outputs[t] == Multiple(bases[t], scalar)
      {
        outputs[j] := ScalarMul(bases[j], scalar);
        j := j + 1;
      }
      i := i + chunk;
    }
    ok := true;
  }

  /** The scalar argument of `MultiScalarMul`: a container or a single scalar. */
  datatype ScalarOrScalars = Scalars(items: seq<nat>) | Scalar(value: nat)

  /** The base argument of `MultiScalarMul`: a container or a single base. */
  datatype BaseOrBases = Bases(items: seq<Elem>) | Base(value: Elem)

  /** Every container argument has `n` elements, and `n` is not zero. */
  predicate ShapeOk(s: ScalarOrScalars, b: BaseOrBases, n: nat)
  {
    (s.Scalars? ==> |s.items| == n) && (b.Bases? ==> |b.items| == n) && n != 0
  }

  function ScalarAt(s: ScalarOrScalars, j: nat): nat
    requires s.Scalars? ==> j < |s.items|
  {
    match s
    case Scalars(items) => items[j]
    case Scalar(value) => value
  }

  function BaseAt(b: BaseOrBases, j: nat): Elem
    requires b.Bases? ==> j < |b.items|
  {
    match b
    case Bases(items) => items[j]
    case Base(value) => value
  }

  /** `MultiScalarMul`: dispatch on which arguments are containers.  Two
      single arguments do not compile in the source. */
  method MultiScalarMul(s: ScalarOrScalars, b: BaseOrBases, outputs: array<Elem>, chunk: nat)
    returns (ok: bool)
    requires chunk >= 1
    requires s.Scalars? || b.Bases?
    modifies outputs
    ensures ok <==> ShapeOk(s, b, outputs.Length)
    ensures !ok ==> outputs[..] == old(outputs[..])
    ensures ok ==> forall j :: 0 <= j < outputs.Length ==> outputs[j] == Multiple(BaseAt(b, j), ScalarAt(s, j))
  {
    match (s, b)
    case (Scalars(scalars), Bases(bases)) =>
      ok := MultiScalarMulMSMB(scalars, bases, outputs, chunk);
    case (Scalars(scalars), Base(base)) =>
      ok := MultiScalarMulMSSB(scalars, base, outputs, chunk);
    case (Scalar(scalar), Bases(bases)) =>
      ok := MultiScalarMulSSMB(scalar, bases, outputs, chunk);
  }
}

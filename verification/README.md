# Tachyon semigroup engine and blinder, modelled in Dafny

This project models two parts of the Tachyon zero-knowledge library.

- **The exponentiation / scalar-multiplication engine** of
  `tachyon/math/base/semigroups.h`, on both of its sides:
  - multiplicative: `Square`, `Pow`/`DoPow` (square-and-multiply over the
    exponent's bits, most significant first), `PowWithTable` (a table of
    powers of two, least significant bit first) and `GetSuccessivePowers`;
  - additive: `Double`, `ScalarMul`/`DoScalarMul` (double-and-add),
    `GetSuccessiveScalarMuls` and the three multi-scalar-multiplication
    shapes behind `MultiScalarMul`.
- **`Blinder`** of `tachyon/zk/base/blinder.h`. It overwrites the trailing
  rows of an evaluation buffer with random field elements.

The engine is generic over an element type `G`. Here `G` is the prime field
GF(7), the field the repository's curve tests use (module `Field`). Its
associativity and identity laws are proved there, and the engine's proofs
use nothing else about it. An exponent or scalar (`BigInt<N>`) is a `nat`.
Module `Bits` gives the two bit orders the loops walk:
- `BitsBE`: most significant first, leading zeros skipped;
- `BitsLE`: least significant first, ending at the highest set bit.

Each OpenMP loop over chunks of `[0, size)` is an ordinary sequential loop.
Its chunk length is a parameter `chunk >= 1`. Every contract that does not
mention `chunk` therefore holds for every chunking.

Specification functions: `MultiplicativeSemigroup.Power(g, e)` is `g`
multiplied by itself `e` times. `AdditiveSemigroup.Multiple(g, n)` is `g`
added to itself `n` times. The imperative members are proved equal to these
reference definitions.

Files: `field.dfy`, `bits.dfy`, `multiplicative.dfy`, `additive.dfy`,
`blinder.dfy`.

## Model

| member | source | states |
|---|---|---|
| `Field.MulAssociative` | tachyon/math/base/semigroups.h:79-86 | `*` on the instantiated G is associative, as a multiplicative semigroup requires |
| `Field.AddAssociative` | tachyon/math/base/semigroups.h:79-82 | `+` on the instantiated G is associative, as an additive semigroup requires |
| `Bits.BitsBE` | tachyon/math/base/semigroups.h:188-189 | the big-endian bit scan is empty exactly for 0 and otherwise starts at a set bit (leading zeros skipped) |
| `Bits.ValueOfBitsBE` | tachyon/math/base/semigroups.h:188-189 | the big-endian bits, read back, give the exponent |
| `Bits.BitsLE` | tachyon/math/base/semigroups.h:149-150 | the little-endian bit scan is empty exactly for 0, ends at a set bit and is as long as the big-endian one |
| `Bits.ValueOfBitsLE` | tachyon/math/base/semigroups.h:149-150 | the little-endian bits, read back with weight 2^i for bit i, give the exponent |
| `MultiplicativeSemigroup.PowerAdd` | tachyon/math/base/semigroups.h:125-127 | g^(a+b) = g^a * g^b, the identity square-and-multiply rests on |
| `MultiplicativeSemigroup.Square` | tachyon/math/base/semigroups.h:115-123 | `Square()` returns a², g multiplied by itself twice |
| `MultiplicativeSemigroup.DoPow` | tachyon/math/base/semigroups.h:184-206 | the result is g^e; One() for e = 0; the loop keeps the accumulator equal to g raised to the value of the bits consumed so far |
| `MultiplicativeSemigroup.Pow` | tachyon/math/base/semigroups.h:128-142 | `Pow(e)` returns g^e |
| `MultiplicativeSemigroup.SelectedProductIsPower` | tachyon/math/base/semigroups.h:144-161 | when table[i] = base^(2^i) for every visited i, the product of the entries at set bits is base raised to the bits' value |
| `MultiplicativeSemigroup.PowWithTable` | tachyon/math/base/semigroups.h:144-161 | the result multiplies in table[i] exactly for the set bits i, in index order; with a correct powers-of-two table it is base^e; the table must cover every visited index |
| `MultiplicativeSemigroup.GetSuccessivePowers` | tachyon/math/base/semigroups.h:163-179 | the result has `size` entries and entry j is c * g^j, for every chunk size (empty for size 0) |
| `AdditiveSemigroup.MultipleAdd` | tachyon/math/base/semigroups.h:324-346 | (a+b)·g = a·g + b·g, the identity double-and-add rests on |
| `AdditiveSemigroup.Double` | tachyon/math/base/semigroups.h:239-247 | `Double()` returns 2·a, a added to itself twice |
| `AdditiveSemigroup.DoScalarMul` | tachyon/math/base/semigroups.h:324-346 | the result is s·g; Zero() for s = 0; the loop keeps the accumulator equal to the value of the bits consumed so far times g |
| `AdditiveSemigroup.ScalarMul` | tachyon/math/base/semigroups.h:253-267 | `ScalarMul(s)` returns s·g |
| `AdditiveSemigroup.ChunkStart` | tachyon/math/base/semigroups.h:311-313 | the chunk holding an index starts at or before it and at most `chunk - 1` places before it |
| `AdditiveSemigroup.ChunkStartIsStart` | tachyon/math/base/semigroups.h:311 | the chunk start of any index is a fixed point of ChunkStart, i.e. one of the starts 0, chunk, 2·chunk, ... the outer loop visits; with ChunkStart and ChunkStartInChunk every index lies in exactly one chunk |
| `AdditiveSemigroup.ChunkStartInChunk` | tachyon/math/base/semigroups.h:311-313 | every index the inner loop of a chunk visits belongs to that chunk |
| `AdditiveSemigroup.ScalarMulsEntryWithOne` | tachyon/math/base/semigroups.h:303-319 | with the default c = One(), entry j is j·g whatever the chunk size |
| `AdditiveSemigroup.ScalarMulsEntryDependsOnChunk` | tachyon/math/base/semigroups.h:311-316 | for c = 2, g = 1 entry 1 is 2 with chunks of one element and 1 with one chunk of two; entry 0 is not c |
| `AdditiveSemigroup.GetSuccessiveScalarMuls` | tachyon/math/base/semigroups.h:303-319 | as written: `size` entries; entry j is c * (s·g) + (j - s)·g for the start s of j's chunk; j·g for every j when c = One() |
| `AdditiveSemigroup.CorrectedDefaultAgrees` | tachyon/math/base/semigroups.h:303-319 | with the corrected default c = Zero(), entry j of the corrected list equals the as-written entry with the default c = One(), for every chunk size, so default callers see no change |
| `AdditiveSemigroup.GetSuccessiveScalarMulsCorrected` | tachyon/math/base/semigroups.h:303-306 | `size` entries with entry j = c + j·g, the same for every chunk size |
| `AdditiveSemigroup.MultiScalarMulMSMB` | tachyon/math/base/semigroups.h:348-369 | succeeds exactly when scalars, bases and outputs have one nonzero length; then outputs[j] = scalars[j]·bases[j] for every j; on failure outputs are untouched |
| `AdditiveSemigroup.MultiScalarMulMSSB` | tachyon/math/base/semigroups.h:371-390 | succeeds exactly when scalars and outputs have one nonzero length; then outputs[j] = scalars[j]·base; on failure outputs are untouched |
| `AdditiveSemigroup.MultiScalarMulSSMB` | tachyon/math/base/semigroups.h:392-411 | succeeds exactly when bases and outputs have one nonzero length; then outputs[j] = scalar·bases[j]; on failure outputs are untouched |
| `AdditiveSemigroup.MultiScalarMul` | tachyon/math/base/semigroups.h:269-301 | for each of the three shapes: success exactly when every container argument has the outputs' nonzero length, each output then the product of its scalar and base, outputs untouched on failure |
| `Blinding.Blinder.constructor` | tachyon/zk/base/blinder.h:19-22 | the blinder keeps the given generator and blinding factor count |
| `Blinding.Blinder.SetBlindingFactors` | tachyon/zk/base/blinder.h:27-30 | after `set_blinding_factors(n)`, `blinding_factors()` returns n |
| `Blinding.Blinder.Generate` | tachyon/zk/base/blinder.h:49 | returns the generator's next value and advances it by one draw |
| `Blinding.Blinder.Blind` | tachyon/zk/base/blinder.h:32-47 | blinding rows = blinding factors, plus one with `include_last_row`. Fails exactly when the buffer is shorter, and then nothing changes. Otherwise the last `rows` entries become the next `rows` draws in index order. Every earlier entry, the buffer length and the factor count are unchanged. With no factors and no last row it succeeds and changes nothing |

## Left out

- Parallelism: the OpenMP loops run sequentially. `base::GetNumElementsPerThread` is not part of this model; its result is the parameter `chunk`.
- Compile-time capability probing (`SUPPORTS_BINARY_OPERATOR`, `SupportsSize`, `SupportsToBigInt`): the functional and in-place forms of `*`, `+`, `Square` and `Double` compute the same value, so each is one function here. `MultiScalarMul` dispatches on a datatype saying which argument is a container. The case of two single arguments does not compile in the source; here it is excluded by a precondition.
- The element type is only GF(7). Elliptic-curve point types, their formulas, Montgomery form and `Random()` are not part of this model, and neither are the tests that exercise them.
- `BigInt<N>`: the limb layout, the fixed width of 64·N bits and the bit iterators' code are not part of this model. Exponents and scalars are unbounded `nat`s, so nothing truncates the scalar converted to `BigInt<1>`.
- `MultiplicativeSemigroup.PowWithTable` takes a ghost `base`. The source has no such argument; it only names the element whose powers the table is meant to hold.
- `LOG(ERROR)` in the multi-scalar-multiplication variants is logging only.
- `GetSuccessivePowers` and `GetSuccessiveScalarMuls` return a sequence rather than a `std::vector`. Default arguments are passed explicitly: `c = G::One()` there, and `include_last_row = false` of `Blind` (blinder.h:37).
- `RandomFieldGeneratorBase` (random_field_generator_base.h) is not part of this model. The generator is a fixed stream of values read one per draw, so the model says which draw lands where, not what the values are.
- `RowIndex` (row_index.h) is not part of this model. Blinding factors are unbounded `nat`s, so a wrap-around of `++blinding_rows` at the type's maximum is not modelled.
- `Evals` is an `array` of field elements: `NumElements()` is its length, and `*evals[i]` is element i. A Dafny array cannot change length, so "the buffer length is unchanged" holds by construction.
- The `random_field_generator()` accessor is the constant field `generator` of the class.

## Findings

| source | as written | input that shows it | evidently intended | confidence | as-written member | corrected member |
|---|---|---|---|---|---|---|
| tachyon/math/base/semigroups.h:303-319 | each chunk of `GetSuccessiveScalarMuls` starts at `c * ScalarMul(i)` and then adds `g`, so for c other than One() the entries depend on the chunk size, and entry 0 is 0 instead of c | size = 2, g = 1, c = 2 in GF(7): entry 1 is 2 with chunks of one element and 1 with one chunk of two; entry 0 is 0 in both | entry j is c + j·g for every chunk size: `c +` in place of `c *`, together with the default `c = G::Zero()` in place of `G::One()`, so that default callers still get j·g (`CorrectedDefaultAgrees`). This is the additive analogue of c * g^j, and it matches the comment's leading c. A competing reading of the comment's later entries `c * g, c * 2 * g` is c * (j·g), i.e. a step of `c * g` in place of `g`; it is also chunk-independent and also agrees with the code at c = One(). Which fix was meant is open; that the code as written depends on the chunk size is not | low for the chosen correction, high for the chunk dependence; not executed | `AdditiveSemigroup.ScalarMulsEntryDependsOnChunk` | `AdditiveSemigroup.GetSuccessiveScalarMulsCorrected` |

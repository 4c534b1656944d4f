/** `Blinder` (tachyon/zk/base/blinder.h): overwrites the trailing rows of an
    evaluation buffer with fresh random field elements. */
module Blinding {
  import opened Field

  /** Stands in for `RandomFieldGeneratorBase<F>`: an opaque source of field
      elements.  Its n-th draw is `stream(n)`; `drawn` counts the draws made
      so far. */
  class RandomFieldGenerator {
    const stream: nat -> Elem
    var drawn: nat

    constructor (source: nat -> Elem)
      ensures stream == source && drawn == 0
    {
      stream := source;
      drawn := 0;
    }

    /** `Generate()`: the next value of the source. */
    method Generate() returns (r: Elem)
      modifies this
      ensures r == stream(old(drawn))
      ensures drawn == old(drawn) + 1
    {
      r := stream(drawn);
      drawn := drawn + 1;
    }
  }

  class Blinder {
    /** Not owned: shared with whoever created the blinder. */
    const generator: RandomFieldGenerator
    var blindingFactors: nat

    constructor (generator: RandomFieldGenerator, blindingFactors: nat)
      ensures this.generator == generator && this.blindingFactors == blindingFactors
    {
      this.generator := generator;
      this.blindingFactors := blindingFactors;
    }

    /** `blinding_factors()`. */
    function BlindingFactors(): nat
      reads this
    {
      blindingFactors
    }

    /** `set_blinding_factors(n)`: afterwards `blinding_factors()` is `n`. */
    method SetBlindingFactors(n: nat)
      modifies this
      ensures BlindingFactors() == n
    {
      blindingFactors := n;
    }

    /** `Generate()`: one value drawn from the shared generator. */
    method Generate() returns (r: Elem)
      modifies generator
      ensures r == generator.stream(old(generator.drawn))
      ensures generator.drawn == old(generator.drawn) + 1
    {
      r := generator.Generate();
    }

    /** `Blind(evals, include_last_row)`: the last `blinding_factors`
        entries of `evals`, one more when `includeLastRow` is set, are
        replaced by successive draws of the generator, in index order.  Fails,
        changing nothing, when `evals` is shorter than that. */
    method Blind(evals: array<Elem>, includeLastRow: bool) returns (ok: bool)
      modifies evals, generator
      ensures blindingFactors == old(blindingFactors)
      ensures
        var rows := blindingFactors + (if includeLastRow then 1 else 0);
        && (ok <==> rows <= evals.Length)
        && (!ok ==> evals[..] == old(evals[..]) && generator.drawn == old(generator.drawn))
        && (ok ==> generator.drawn == old(generator.drawn) + rows)
        && (ok ==> forall i :: 0 <= i < evals.Length - rows ==> evals[i] == old(evals[i]))
        && (ok ==> forall i :: evals.Length - rows <= i < evals.Length ==>
                     evals[i] == generator.stream(old(generator.drawn) + (i - (evals.Length - rows))))
      ensures blindingFactors == 0 && !includeLastRow ==> ok && evals[..] == old(evals[..])
    {
      var size := evals.Length;
      var rows := blindingFactors;
      if includeLastRow {
        rows := rows + 1;
      }
      if size < rows {
        return false;
      }
      var start := size - rows;
      ghost var drawn0 := generator.drawn;
      var i := start;
      while i < size
        invariant start <= i <= size
        invariant generator.drawn == drawn0 + (i - start)
        invariant forall t :: 0 <= t < start ==> evals[t] == old(evals[t])
        invariant forall t :: start <= t < i ==> evals[t] == generator.stream(drawn0 + (t - start))
        invariant forall t :: i <= t < size ==> evals[t] == old(evals[t])
      {
        evals[i] := generator.Generate();
        i := i + 1;
      }
      ok := true;
    }
  }
}

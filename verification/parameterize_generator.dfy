/**
 * The base of the parameterised generators: a stored parameter, generation
 * with it, and batch generation guarded by a positive count. What a concrete
 * generator produces for one parameter (`generate(P)`) and for a batch
 * (`doBatchGenerate(P, count)`) is supplied as a pair of functions.
 */
module ParameterizeGenerators {
  import opened Wrappers

  class ParameterizeGenerator<P, T> {
    var parameter: P
    /** generate(P) of the concrete generator. */
    const generateWith: P -> T
    /** doBatchGenerate(P, count) of the concrete generator. */
    const doBatchGenerate: (P, int) -> seq<T>

    constructor(parameter: P, generateWith: P -> T, doBatchGenerate: (P, int) -> seq<T>)
      ensures this.parameter == parameter
      ensures this.generateWith == generateWith && this.doBatchGenerate == doBatchGenerate
    {
      this.parameter := parameter;
      this.generateWith := generateWith;
      this.doBatchGenerate := doBatchGenerate;
    }

    /** getParameter: the parameter stored last. */
    function GetParameter(): (p: P)
      reads this
      ensures p == parameter
    {
      parameter
    }

    /** setParameter: later calls without a parameter use the new one. */
    method SetParameter(p: P)
      modifies this`parameter
      ensures parameter == p && GetParameter() == p
    {
      parameter := p;
    }

    /** generate(): generation with the stored parameter. */
    method Generate() returns (t: T)
      ensures t == generateWith(GetParameter())
    {
      t := generateWith(parameter);
    }

    /** batchGenerate(P, count): a count that is not positive fails the assertion before any generation. */
    method BatchGenerateWith(p: P, count: int) returns (r: Result<seq<T>>)
      ensures r.Failure? <==> count <= 0
      ensures r.Failure? ==> r.error == IllegalArgument
      ensures r.Success? ==> r.value == doBatchGenerate(p, count)
    {
      if !(count > 0) {
        return Failure(IllegalArgument);
      }
      return Success(doBatchGenerate(p, count));
    }

    /** batchGenerate(count): the guarded batch with the stored parameter. */
    method BatchGenerate(count: int) returns (r: Result<seq<T>>)
      ensures r.Failure? <==> count <= 0
      ensures r.Failure? ==> r.error == IllegalArgument
      ensures r.Success? ==> r.value == doBatchGenerate(GetParameter(), count)
    {
      r := BatchGenerateWith(parameter, count);
    }
  }

  /** After setParameter, the batch of a stored-parameter call is the batch for the new parameter. */
  method SetThenBatch<P, T>(g: ParameterizeGenerator<P, T>, p: P, count: int) returns (r: Result<seq<T>>)
    modifies g
    ensures count > 0 ==> r == Success(g.doBatchGenerate(p, count))
    ensures count <= 0 ==> r == Failure(IllegalArgument)
  {
    g.SetParameter(p);
    r := g.BatchGenerate(count);
  }
}

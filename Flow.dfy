/**
 * `Flow`: the same immutable apply-and-rewrap wrapper as `Carry`, under
 * another name. It is proved to agree with `Carry` step for step, and so
 * with `Pipeline::through`.
 */
module FlowChain {
  import Pipeline
  import CarryChain

  datatype Flow<T> = Flow(current: T) {

    /** `Flow::with`: the value is wrapped as it is, so `result` gives it back. */
    static function With(current: T): (f: Flow<T>)
      ensures f.Result() == current
    {
      Flow(current)
    }

    /** `Flow::do`: a new wrapper around `fn` of the held value. */
    function Do<U>(fn: T -> U): (next: Flow<U>)
      ensures next.Result() == fn(Result())
    {
      Flow(fn(current))
    }

    /** `Flow::result`: the held value. */
    function Result(): (held: T)
      ensures Flow(held) == this
    {
      current
    }
  }

  /** The fluent chain `Flow::with(start)->do(f1)->...->do(fn)`. */
  function Chain<T>(start: T, fns: seq<T -> T>): Flow<T>
    decreases |fns|
  {
    if fns == [] then Flow.With(start)
    else Chain(start, fns[..|fns| - 1]).Do(fns[|fns| - 1])
  }

  /** `Flow` and `Carry` are observationally identical: every chain reads back the same value. */
  lemma {:induction false} FlowAgreesWithCarry<T>(start: T, fns: seq<T -> T>)
    ensures Chain(start, fns).Result() == CarryChain.Chain(start, fns).Result()
    decreases |fns|
  {
    if fns != [] {
      FlowAgreesWithCarry(start, fns[..|fns| - 1]);
    }
  }

  /** A chain of `do` calls computes what `Pipeline::through` computes. */
  lemma {:induction false} ChainIsThrough<T>(start: T, fns: seq<T -> T>)
    ensures Chain(start, fns).Result() == Pipeline.Fold(start, fns)
  {
    FlowAgreesWithCarry(start, fns);
    CarryChain.ChainIsThrough(start, fns);
  }
}

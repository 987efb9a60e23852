/**
 * `Carry`: an immutable wrapper around one value. `with` wraps a value,
 * `do(fn)` wraps `fn` of the held value in a new wrapper, `result` reads
 * the held value back. The PHP field is `readonly`, so a datatype value
 * (which nothing can update) is the wrapper.
 */
module CarryChain {
  import Pipeline

  datatype Carry<T> = Carry(current: T) {

    /** `Carry::with`: the value is wrapped as it is, so `result` gives it back. */
    static function With(current: T): (c: Carry<T>)
      ensures c.Result() == current
    {
      Carry(current)
    }

    /** `Carry::do`: a new wrapper around `fn` of the held value. */
    function Do<U>(fn: T -> U): (next: Carry<U>)
      ensures next.Result() == fn(Result())
    {
      Carry(fn(current))
    }

    /** `Carry::result`: the held value. */
    function Result(): (held: T)
      ensures Carry(held) == this
    {
      current
    }
  }

  /** The fluent chain `Carry::with(start)->do(f1)->...->do(fn)`. */
  function Chain<T>(start: T, fns: seq<T -> T>): Carry<T>
    decreases |fns|
  {
    if fns == [] then Carry.With(start)
    else Chain(start, fns[..|fns| - 1]).Do(fns[|fns| - 1])
  }

  /** A chain of `do` calls computes what `Pipeline::through` computes. */
  lemma {:induction false} ChainIsThrough<T>(start: T, fns: seq<T -> T>)
    ensures Chain(start, fns).Result() == Pipeline.Fold(start, fns)
    decreases |fns|
  {
    if fns != [] {
      var init, last := fns[..|fns| - 1], fns[|fns| - 1];
      assert fns == init + [last];
      ChainIsThrough(start, init);
      Pipeline.FoldSnoc(start, init, last);
    }
  }
}

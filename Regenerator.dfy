/**
 * `Regenerator`: an iterable that calls its provider afresh every time it is
 * iterated, so that a callable returning a new generator on each call can be
 * iterated any number of times.
 *
 * The provider is a function from an argument list to the PHP value it
 * returns; a value is classified the way `is_iterable` sees it. A ghost log
 * of provider calls on the class states when the provider runs.
 */
module Regeneration {
  import opened Wrappers

  /** A `Traversable`, as iteration sees it: the elements it yields, in order. */
  datatype Traversable<E> =
    | ArrayIterator(elements: seq<E>)  // an array wrapped for iteration
    | InnerIterator(elements: seq<E>)  // any traversable object the provider returns itself

  /**
   * A value the provider may return; `NotIterable` carries any other PHP
   * value (a scalar, null, an object that is not traversable) as it is.
   */
  datatype Value<E, S> =
    | PhpArray(items: seq<E>)
    | TraversableObject(traversable: Traversable<E>)
    | NotIterable(raw: S)
  {
    /** `is_iterable`: arrays and traversable objects. */
    predicate IsIterable() {
      !NotIterable?
    }

    /** The elements iteration over this value yields, in order. */
    function Elements(): seq<E>
      requires IsIterable()
    {
      if PhpArray? then items else traversable.elements
    }
  }

  /** The exception `getIterator` throws. */
  datatype Error = UnexpectedValue(message: string)

  const NotIterableMessage: string :=
    "The value returned by the provider callable is not an iterable collection."

  /**
   * `Itera::ensureTraversable`, which is not part of this model, as its use
   * here describes it: an array is wrapped into an iterator over its elements
   * in order, a traversable is passed through as it is.
   */
  function EnsureTraversable<E, S>(input: Value<E, S>): (t: Traversable<E>)
    requires input.IsIterable()
    ensures t.elements == input.Elements()
    ensures input.TraversableObject? ==> t == input.traversable
    ensures input.PhpArray? ==> t.ArrayIterator?
  {
    match input
    case PhpArray(items) => ArrayIterator(items)
    case TraversableObject(traversable) => traversable
  }

  /**
   * What one iteration over a Regenerator with provider `callable` starts
   * from: the provider is called with no arguments; a non-iterable result is
   * an `UnexpectedValue` error, anything else is iterated, element by element.
   */
  function Iteration<A, E, S>(callable: seq<A> -> Value<E, S>): (r: Result<Traversable<E>, Error>)
    ensures r.Err? <==> !callable([]).IsIterable()
    ensures r.Err? ==> r.error == UnexpectedValue(NotIterableMessage)
    ensures r.Ok? ==> r.value.elements == callable([]).Elements()
  {
    var collection := callable([]);
    if !collection.IsIterable() then Err(UnexpectedValue(NotIterableMessage))
    else Ok(EnsureTraversable(collection))
  }

  /** An array result is wrapped and iterated in order; a traversable result is the iterator itself. */
  lemma IterationOfEachKind<A, E, S>(callable: seq<A> -> Value<E, S>)
    ensures callable([]).PhpArray? ==> Iteration(callable) == Ok(ArrayIterator(callable([]).items))
    ensures callable([]).TraversableObject? ==> Iteration(callable) == Ok(callable([]).traversable)
  {
  }

  /**
   * A provider returning the array `xs` and one returning a generator over
   * `xs` are iterated alike.
   */
  lemma ArrayAndGeneratorIterateAlike<A, E, S>(fromArray: seq<A> -> Value<E, S>, fromGenerator: seq<A> -> Value<E, S>, xs: seq<E>)
    requires fromArray([]) == PhpArray(xs)
    requires fromGenerator([]) == TraversableObject(InnerIterator(xs))
    ensures Iteration(fromArray).Ok? && Iteration(fromGenerator).Ok?
    ensures Iteration(fromArray).value.elements == xs == Iteration(fromGenerator).value.elements
  {
  }

  class Regenerator<A, E, S> {
    /** The provider, set once at construction and never replaced. */
    const callable: seq<A> -> Value<E, S>

    /** The argument lists the provider has been called with, in order. */
    ghost var calls: seq<seq<A>>

    /** Construction stores the provider and does not call it. */
    constructor (callable: seq<A> -> Value<E, S>)
      ensures this.callable == callable
      ensures calls == []
    {
      this.callable := callable;
      calls := [];
    }

    /**
     * `Regenerator::getIterator`: one provider call with no arguments per
     * iteration; the result is checked to be iterable, then made traversable.
     */
    method GetIterator() returns (r: Result<Traversable<E>, Error>)
      modifies this`calls
      ensures r == Iteration(callable)
      ensures calls == old(calls) + [[]]
    {
      calls := calls + [[]];
      r := Iteration(callable);
    }

    /** `Regenerator::__invoke`: the arguments go to the provider and its raw result comes back unchecked. */
    method Invoke(args: seq<A>) returns (r: Value<E, S>)
      modifies this`calls
      ensures r == callable(args)
      ensures calls == old(calls) + [args]
    {
      r := callable(args);
      calls := calls + [args];
    }
  }

  /**
   * Two passes over one Regenerator call the provider twice, once per pass,
   * and (the provider being a function of its arguments) start from the same
   * elements. That each pass gets a fresh result is shown only by the ghost
   * call log: iterators are finite sequences here and are never exhausted.
   */
  method IterateTwice<A, E, S>(g: Regenerator<A, E, S>) returns (first: Result<Traversable<E>, Error>, second: Result<Traversable<E>, Error>)
    modifies g`calls
    ensures first == second == Iteration(g.callable)
    ensures g.calls == old(g.calls) + [[], []]
  {
    first := g.GetIterator();
    second := g.GetIterator();
  }

  /** A provider of a non-iterable value is accepted at construction; the error comes at iteration. */
  method NotIterableFailsWhenIterated<A, E, S>(callable: seq<A> -> Value<E, S>)
    returns (ghost constructed: seq<seq<A>>, r: Result<Traversable<E>, Error>)
    requires !callable([]).IsIterable()
    ensures constructed == []
    ensures r == Err(UnexpectedValue(NotIterableMessage))
  {
    var g := new Regenerator<A, E, S>(callable);
    constructed := g.calls;
    r := g.GetIterator();
  }

  /** Direct invocation returns a non-iterable result as it is, where iteration fails. */
  method InvokeSkipsIterableCheck<A, E, S>(callable: seq<A> -> Value<E, S>, args: seq<A>)
    returns (raw: Value<E, S>, r: Result<Traversable<E>, Error>)
    requires !callable(args).IsIterable() && !callable([]).IsIterable()
    ensures raw == NotIterable(callable(args).raw)
    ensures r == Err(UnexpectedValue(NotIterableMessage))
  {
    var g := new Regenerator<A, E, S>(callable);
    raw := g.Invoke(args);
    r := g.GetIterator();
  }
}

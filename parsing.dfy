/** The contract every combinator implements: `parse(&context) throws -> Element?`.
    The context has value semantics, so an `inout` context is modelled as a
    sequence going in and the sequence left behind coming out. */
module Parsing {

  /** The error a hard failure throws: the default `HardFailure()`, or an error
      carrying an integer tag supplied by a grammar author. */
  datatype Error = HardFailure | TaggedError(tag: int)

  /** Swift's `Optional`, used for the element `maybe` produces. */
  datatype Option<V> = None | Some(value: V)

  /** The three ways one call of `parse` can end, each with the context it leaves. */
  datatype Outcome<T, V> =
    | Match(value: V, rest: seq<T>)       // a non-nil element
    | Soft(rest: seq<T>)                  // nil: "does not apply here"
    | Hard(error: Error, rest: seq<T>)    // thrown: "committed, but malformed"

  /** A combinator, seen through its `parse` function. */
  type Parser<!T, V> = seq<T> -> Outcome<T, V>

  /** What a `parse` call returns apart from the context it leaves behind. */
  datatype Reply<V> = Value(value: V) | Nil | Thrown(error: Error)
  {
    /** Pairs the reply with the context left behind. */
    function At<T>(rest: seq<T>): (o: Outcome<T, V>)
      ensures o.rest == rest
      ensures o.Match? <==> Value?
      ensures o.Soft? <==> Nil?
      ensures Value? ==> o.value == value
      ensures Thrown? ==> o.Hard? && o.error == error
    {
      match this
      case Value(v) => Match(v, rest)
      case Nil => Soft(rest)
      case Thrown(e) => Hard(e, rest)
    }
  }

  /** The result of `makeNext` in `Bind`: a combinator, or a thrown error. */
  datatype Result<R> = Ok(value: R) | Err(error: Error)

  /** The result of a throwing function that also receives the context `inout`
      and returns a non-optional value (the transform of `map`). */
  datatype Effect<T, R> = Returned(value: R, rest: seq<T>) | Threw(error: Error, rest: seq<T>)

  /** `(inout Context) -> Error`: builds the error and may change the context. */
  type FailureMaker<!T> = seq<T> -> (Error, seq<T>)

  /** Replaces the value of a match, keeping failures and the context as they are
      (Swift's optional chaining `?.0` on the result of a `try`). */
  function MapValue<T, P, R>(o: Outcome<T, P>, f: P -> R): (r: Outcome<T, R>)
    ensures r.rest == o.rest
    ensures r.Match? <==> o.Match?
    ensures r.Soft? <==> o.Soft?
    ensures o.Match? ==> r.value == f(o.value)
    ensures o.Hard? ==> r.Hard? && r.error == o.error
  {
    match o
    case Match(v, rest) => Match(f(v), rest)
    case Soft(rest) => Soft(rest)
    case Hard(e, rest) => Hard(e, rest)
  }

  /** A soft failure of `p` never changes the context. */
  ghost predicate SoftPure<T(!new), V>(p: Parser<T, V>)
  {
    forall c :: p(c).Soft? ==> p(c).rest == c
  }

  /** `p` never reports a soft failure. */
  ghost predicate NeverSoft<T(!new), V>(p: Parser<T, V>)
  {
    forall c :: !p(c).Soft?
  }

  /** Every match of `p` consumes at least one element: the condition under which
      repeating `p` terminates. */
  ghost predicate Progressive<T(!new), V>(p: Parser<T, V>)
  {
    forall c :: p(c).Match? ==> |p(c).rest| < |c|
  }
}

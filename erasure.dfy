/** `AnyCombinator`: a type-erased combinator that stores a parse function and
    forwards every call to it. */
module Erasure {
  import opened Parsing

  datatype AnyCombinator<!T(!new), V> = AnyCombinator(parseFunction: Parser<T, V>)
  {
    /** `init(_ base:)`: forwards to `base.parse(_:)`. Element, soft failure,
        thrown error and the context left behind are all those of `base`. */
    static function Erasing(base: Parser<T, V>): (r: AnyCombinator<T, V>)
      ensures forall c :: r.Parse(c) == base(c)
    {
      AnyCombinator(base)
    }

    /** `init(parse:)`: forwards to the given closure, so it parses exactly as
        the closure does. */
    static function FromClosure(parse: Parser<T, V>): (r: AnyCombinator<T, V>)
      ensures forall c :: r.Parse(c) == parse(c)
    {
      AnyCombinator(parse)
    }

    /** `parse(_:)`: the call is forwarded, so the outcome, including a hard
        failure and the context it leaves, is exactly the stored function's. */
    function Parse(context: seq<T>): (o: Outcome<T, V>)
      ensures o == parseFunction(context)
    {
      parseFunction(context)
    }

    /** The combinator as a parse function, `parse(_:)`. */
    function AsParser(): (p: Parser<T, V>)
      ensures forall c :: p(c) == Parse(c)
    {
      c => Parse(c)
    }
  }

  /** Erasure preserves the soft-failure discipline of what it wraps, in both
      directions, and never adds a match, a soft failure or an error. */
  lemma ErasingPreservesBehaviour<T(!new), V>(base: Parser<T, V>)
    ensures SoftPure(AnyCombinator.Erasing(base).AsParser()) <==> SoftPure(base)
    ensures NeverSoft(AnyCombinator.Erasing(base).AsParser()) <==> NeverSoft(base)
    ensures Progressive(AnyCombinator.Erasing(base).AsParser()) <==> Progressive(base)
  {
    var erased := AnyCombinator.Erasing(base).AsParser();
    assert forall c :: erased(c) == base(c);
  }
}

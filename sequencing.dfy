/** `Combine`: applies one combinator and then another, pairing their elements.
    Once the first has matched, a soft failure of the second is a hard failure. */
module Sequencing {
  import opened Parsing

  /** The hard failure of `init(_:and:)`: `HardFailure()`, context untouched. */
  function DefaultFailure<T>(context: seq<T>): (r: (Error, seq<T>))
  {
    (HardFailure, context)
  }

  datatype Combine<!T(!new), A, B> = Combine(
    firstCombinator: Parser<T, A>,
    secondCombinator: Parser<T, B>,
    makeHardFailure: FailureMaker<T>)
  {
    /** `init(_:and:)`: the second combinator's soft failure becomes `HardFailure()`. */
    static function WithDefaultFailure(first: Parser<T, A>, second: Parser<T, B>): (r: Combine<T, A, B>)
      ensures forall c :: r.firstCombinator(c) == first(c) && r.secondCombinator(c) == second(c)
      ensures forall c :: r.makeHardFailure(c) == (HardFailure, c)
    {
      Combine(first, second, DefaultFailure)
    }

    /** `parse(_:)`. A soft failure can only come from the first combinator, and
        then the second is not consulted; both must match for a match; once the
        first has matched, a soft failure of the second is turned into the error
        `makeHardFailure` builds from the context the second left, and that
        context is not rolled back. */
    function Parse(context: seq<T>): (o: Outcome<T, (A, B)>)
      ensures o.Soft? <==> firstCombinator(context).Soft?
      ensures o.Soft? ==> o.rest == firstCombinator(context).rest
      ensures o.Match? <==>
        firstCombinator(context).Match? && secondCombinator(firstCombinator(context).rest).Match?
      ensures o.Match? ==>
        var afterFirst := firstCombinator(context).rest;
        o.value == (firstCombinator(context).value, secondCombinator(afterFirst).value)
        && o.rest == secondCombinator(afterFirst).rest
      ensures firstCombinator(context).Match? && secondCombinator(firstCombinator(context).rest).Soft? ==>
        var failure := makeHardFailure(secondCombinator(firstCombinator(context).rest).rest);
        o.Hard? && o.error == failure.0 && o.rest == failure.1
    {
      match firstCombinator(context)
      case Match(a, afterFirst) =>
        (match secondCombinator(afterFirst)
         case Match(b, afterSecond) => Match((a, b), afterSecond)
         case Soft(afterSecond) =>
           var (e, afterFailure) := makeHardFailure(afterSecond);
           Hard(e, afterFailure)
         case Hard(e, afterSecond) => Hard(e, afterSecond))
      case Soft(afterFirst) => Soft(afterFirst)
      case Hard(e, afterFirst) => Hard(e, afterFirst)
    }

    /** `parse(_:)` as written: the context is threaded through the first
        combinator, then the second, then, on a soft failure, `makeHardFailure`. */
    method ParseInPlace(context: seq<T>) returns (reply: Reply<(A, B)>, context': seq<T>)
      ensures reply.At(context') == Parse(context)
    {
      context' := context;
      var first := firstCombinator(context');
      context' := first.rest;
      if first.Hard? {
        return Thrown(first.error), context';
      } else if first.Soft? {
        return Nil, context';
      }
      var a := first.value;
      var second := secondCombinator(context');
      context' := second.rest;
      if second.Hard? {
        return Thrown(second.error), context';
      } else if second.Soft? {
        var failure := makeHardFailure(context');
        context' := failure.1;
        return Thrown(failure.0), context';
      }
      reply := Value((a, second.value));
    }

    /** The combinator as a parse function, `parse(_:)`. */
    function AsParser(): (p: Parser<T, (A, B)>)
      ensures forall c :: p(c) == Parse(c)
    {
      c => Parse(c)
    }

    /** `first`: the same parse, keeping only the first element of the pair. */
    function First(): (p: Parser<T, A>)
      ensures forall c :: p(c).rest == Parse(c).rest
      ensures forall c :: (p(c).Match? <==> Parse(c).Match?) && (p(c).Soft? <==> Parse(c).Soft?)
      ensures forall c :: Parse(c).Match? ==> p(c).value == Parse(c).value.0
      ensures forall c :: Parse(c).Hard? ==> p(c).Hard? && p(c).error == Parse(c).error
    {
      c => MapValue(Parse(c), (pair: (A, B)) => pair.0)
    }

    /** `second`: the same parse, keeping only the second element of the pair. */
    function Second(): (p: Parser<T, B>)
      ensures forall c :: p(c).rest == Parse(c).rest
      ensures forall c :: (p(c).Match? <==> Parse(c).Match?) && (p(c).Soft? <==> Parse(c).Soft?)
      ensures forall c :: Parse(c).Match? ==> p(c).value == Parse(c).value.1
      ensures forall c :: Parse(c).Hard? ==> p(c).Hard? && p(c).error == Parse(c).error
    {
      c => MapValue(Parse(c), (pair: (A, B)) => pair.1)
    }
  }

  /** When the first combinator soft-fails, neither the second combinator nor the
      failure maker has any say in the outcome: they are never run. */
  lemma CombineSkipsSecond<T(!new), A, B>(
    x: Combine<T, A, B>, otherSecond: Parser<T, B>, otherFailure: FailureMaker<T>, context: seq<T>)
    requires x.firstCombinator(context).Soft?
    ensures Combine(x.firstCombinator, otherSecond, otherFailure).Parse(context) == x.Parse(context)
    ensures x.Parse(context) == Soft(x.firstCombinator(context).rest)
  {
  }

  /** A hard failure of either combinator is passed on unchanged, error and
      context alike; a hard failure of the first means the second is not run. */
  lemma CombinePropagatesHard<T(!new), A, B>(x: Combine<T, A, B>, context: seq<T>)
    ensures x.firstCombinator(context).Hard? ==>
      x.Parse(context) == Hard(x.firstCombinator(context).error, x.firstCombinator(context).rest)
    ensures x.firstCombinator(context).Match? && x.secondCombinator(x.firstCombinator(context).rest).Hard? ==>
      var second := x.secondCombinator(x.firstCombinator(context).rest);
      x.Parse(context) == Hard(second.error, second.rest)
  {
  }

  /** With the default failure, a committed sequence whose second part does not
      apply fails hard with `HardFailure()` exactly where the second part left
      the context: commitment is not undone. */
  lemma DefaultFailureCommits<T(!new), A, B>(first: Parser<T, A>, second: Parser<T, B>, context: seq<T>)
    requires first(context).Match? && second(first(context).rest).Soft?
    ensures Combine.WithDefaultFailure(first, second).Parse(context)
         == Hard(HardFailure, second(first(context).rest).rest)
  {
  }

  /** If the first combinator never changes the context when it soft-fails, then
      neither does the sequence, nor its `first` and `second` projections. */
  lemma CombineSoftPure<T(!new), A, B>(x: Combine<T, A, B>)
    requires SoftPure(x.firstCombinator)
    ensures SoftPure(x.AsParser())
    ensures SoftPure(x.First()) && SoftPure(x.Second())
  {
  }

  /** Regroups a nested pair to the right. */
  function Reassociate<A, B, C>(t: ((A, B), C)): (r: (A, (B, C)))
  {
    (t.0.0, (t.0.1, t.1))
  }

  /** Sequencing is associative up to how the elements are paired: `a` then `b`
      (failing with `f`), then `c` (failing with `g`), parses as `a` then, failing
      with `f`, the sequence of `b` and `c` failing with `g`. Each failure maker
      is used for the same missing part on both sides. */
  lemma CombineAssociative<T(!new), A, B, C>(
    a: Parser<T, A>, b: Parser<T, B>, c: Parser<T, C>, f: FailureMaker<T>, g: FailureMaker<T>, context: seq<T>)
    ensures MapValue(Combine(Combine(a, b, f).AsParser(), c, g).Parse(context), Reassociate)
         == Combine(a, Combine(b, c, g).AsParser(), f).Parse(context)
  {
  }

  /** If both combinators consume on every match, so does the sequence, and so
      do its `first` and `second` projections: the sequence can be repeated. */
  lemma CombineProgressive<T(!new), A, B>(x: Combine<T, A, B>)
    requires Progressive(x.firstCombinator) && Progressive(x.secondCombinator)
    ensures Progressive(x.AsParser())
    ensures Progressive(x.First()) && Progressive(x.Second())
  {
  }
}

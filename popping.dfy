/** `PopFirst`: the leaf combinator that pops the front element of the context
    when it satisfies a predicate. */
module Popping {
  import opened Parsing

  /** `accepts` is the stored property `predicate`, a reserved word in Dafny. */
  datatype PopFirst<!T(!new)> = PopFirst(accepts: T -> bool)
  {
    /** Matches the front element exactly when there is one and it satisfies
        `accepts`; the context then becomes its tail. Otherwise a soft failure
        that leaves the context alone. Never a hard failure. */
    function Parse(context: seq<T>): (o: Outcome<T, T>)
      ensures o.Match? <==> context != [] && accepts(context[0])
      ensures o.Match? ==> accepts(o.value) && context == [o.value] + o.rest
      ensures !o.Match? ==> o.Soft? && o.rest == context
      ensures |o.rest| == if o.Match? then |context| - 1 else |context|
    {
      if context != [] && accepts(context[0]) then Match(context[0], context[1..]) else Soft(context)
    }

    /** The combinator as a parse function, `parse(_:)`. */
    function AsParser(): (p: Parser<T, T>)
      ensures forall c :: p(c) == Parse(c)
    {
      c => Parse(c)
    }

    /** `parse(_:)` as written: inspect the front element, and pop it from the
        context only when it is accepted. */
    method ParseInPlace(context: seq<T>) returns (reply: Reply<T>, context': seq<T>)
      ensures reply.At(context') == Parse(context)
    {
      context' := context;
      if context' != [] && accepts(context'[0]) {
        var first := context'[0];
        context' := context'[1..];
        reply := Value(first);
      } else {
        reply := Nil;
      }
    }
  }

  /** A `PopFirst` never changes the context when it does not match, and every
      match consumes an element, so it may be repeated. */
  lemma PopFirstWellBehaved<T(!new)>(pop: PopFirst<T>)
    ensures SoftPure(pop.AsParser())
    ensures Progressive(pop.AsParser())
  {
  }

  /** The number of leading elements of `s` that `accepts` holds of. */
  function LeadingRun<T>(accepts: T -> bool, s: seq<T>): (k: nat)
    ensures k <= |s|
    ensures forall i :: 0 <= i < k ==> accepts(s[i])
    ensures k < |s| ==> !accepts(s[k])
  {
    if s != [] && accepts(s[0]) then 1 + LeadingRun(accepts, s[1..]) else 0
  }
}

/** `Bind`: applies a combinator and passes its element to a function that
    returns the next combinator to apply (a monadic continuation). */
module Binding {
  import opened Parsing
  import opened Popping

  datatype Bind<!T(!new), !A, B> = Bind(base: Parser<T, A>, makeNext: A -> Result<Parser<T, B>>)
  {
    /** `parse(_:)`. A soft or hard failure of `base` is the outcome as it is,
        and `makeNext` is not called. Once `base` has matched, the outcome is
        exactly what the next combinator does on the context `base` left (its
        soft failure is passed on, not escalated), or, if `makeNext` throws, a
        hard failure with that error at that context. */
    function Parse(context: seq<T>): (o: Outcome<T, B>)
      ensures !base(context).Match? ==> o.rest == base(context).rest
      ensures base(context).Soft? ==> o.Soft?
      ensures base(context).Hard? ==> o.Hard? && o.error == base(context).error
      ensures base(context).Match? && makeNext(base(context).value).Ok? ==>
        o == makeNext(base(context).value).value(base(context).rest)
      ensures base(context).Match? && makeNext(base(context).value).Err? ==>
        o == Hard(makeNext(base(context).value).error, base(context).rest)
    {
      match base(context)
      case Match(a, afterBase) =>
        (match makeNext(a)
         case Ok(next) => next(afterBase)
         case Err(e) => Hard(e, afterBase))
      case Soft(afterBase) => Soft(afterBase)
      case Hard(e, afterBase) => Hard(e, afterBase)
    }

    /** `parse(_:)` as written: the context goes through `base`, then through
        the combinator `makeNext` builds from its element. */
    method ParseInPlace(context: seq<T>) returns (reply: Reply<B>, context': seq<T>)
      ensures reply.At(context') == Parse(context)
    {
      context' := context;
      var first := base(context');
      context' := first.rest;
      if first.Hard? {
        return Thrown(first.error), context';
      } else if first.Soft? {
        return Nil, context';
      }
      var made := makeNext(first.value);
      if made.Err? {
        return Thrown(made.error), context';
      }
      var next := made.value(context');
      context' := next.rest;
      match next
      case Match(b, _) => reply := Value(b);
      case Soft(_) => reply := Nil;
      case Hard(e, _) => reply := Thrown(e);
    }

    /** The combinator as a parse function, `parse(_:)`. */
    function AsParser(): (p: Parser<T, B>)
      ensures forall c :: p(c) == Parse(c)
    {
      c => Parse(c)
    }
  }

  /** When `base` does not match, `makeNext` is never called: any other
      continuation gives the same outcome. */
  lemma BindSkipsMakeNext<T(!new), A, B>(
    x: Bind<T, A, B>, otherNext: A -> Result<Parser<T, B>>, context: seq<T>)
    requires !x.base(context).Match?
    ensures Bind(x.base, otherNext).Parse(context) == x.Parse(context)
  {
  }

  /** Runs `g` after the combinator that `made` holds, or throws what `made` threw. */
  function ThenBind<T(!new), B, C>(made: Result<Parser<T, B>>, g: B -> Result<Parser<T, C>>): (r: Result<Parser<T, C>>)
    ensures made.Err? ==> r == Err(made.error)
    ensures made.Ok? ==> r.Ok? && forall c :: r.value(c) == Bind(made.value, g).Parse(c)
  {
    match made
    case Ok(next) => Ok(Bind(next, g).AsParser())
    case Err(e) => Err(e)
  }

  /** Binding is associative: binding `g` after `Bind(p, f)` parses exactly as
      binding, after `p`, the continuation that binds `g` after `f`'s
      combinator. Element, failure and context agree on every input. */
  lemma BindAssociative<T(!new), A, B, C>(
    p: Parser<T, A>, f: A -> Result<Parser<T, B>>, g: B -> Result<Parser<T, C>>, context: seq<T>)
    ensures Bind(Bind(p, f).AsParser(), g).Parse(context)
         == Bind(p, (a: A) => ThenBind(f(a), g)).Parse(context)
  {
    match p(context)
    case Match(a, afterP) =>
      match f(a) {
        case Ok(next) =>
          assert ThenBind(f(a), g).value(afterP) == Bind(next, g).Parse(afterP);
        case Err(_) =>
      }
    case Soft(_) =>
    case Hard(_, _) =>
  }

  /** A soft failure of `Bind` can leave the context advanced: popping `'a'` and
      then popping another copy of the same character soft-fails on "ab", after
      the first `'a'` has been consumed. */
  lemma BindSoftFailureMayConsume()
    ensures
      var pop := PopFirst((ch: char) => ch == 'a');
      var x := Bind(pop.AsParser(), (ch: char) => Ok(PopFirst((d: char) => d == ch).AsParser()));
      x.Parse("ab") == Soft("b") && !SoftPure(x.AsParser())
  {
    var pop := PopFirst((ch: char) => ch == 'a');
    var x := Bind(pop.AsParser(), (ch: char) => Ok(PopFirst((d: char) => d == ch).AsParser()));
    assert pop.Parse("ab") == Match('a', "b");
    assert x.AsParser()("ab") == Soft("b");
  }

  /** If `base` consumes on every match and every combinator `makeNext` can
      build does too, then `Bind` consumes on every match. */
  lemma BindProgressive<T(!new), A(!new), B>(x: Bind<T, A, B>)
    requires Progressive(x.base)
    requires forall a :: x.makeNext(a).Ok? ==> Progressive(x.makeNext(a).value)
    ensures Progressive(x.AsParser())
  {
    var p := x.AsParser();
    forall c | p(c).Match? ensures |p(c).rest| < |c| {
      var a := x.base(c).value;
      assert x.makeNext(a).Ok?;
      assert |x.makeNext(a).value(x.base(c).rest).rest| < |x.base(c).rest|;
    }
  }
}

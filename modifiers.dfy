/** Modifiers: `Maybe` (built by `maybe`), `OneOrMany` and `ZeroOrMany` (built
    by the postfix `+` and `*` and by `oneOrMany` and `zeroOrMany`) and
    `Transform` (built by `map`). Their own source files are not part of this
    model; they are modelled as far as the doc comments of their constructors
    and the scenarios that exercise them determine. */
module Modifiers {
  import opened Parsing
  import opened Popping

  /** Applies `base` and never soft-fails: a soft failure of `base` becomes a
      match with an absent element, on the original context. */
  datatype Maybe<!T(!new), V> = Maybe(base: Parser<T, V>)
  {
    /** The element is present exactly when `base` matches, and the context is
        then where `base` left it; when `base` soft-fails the context is
        restored; a hard failure of `base` is passed on unchanged. */
    function Parse(context: seq<T>): (o: Outcome<T, Option<V>>)
      ensures !o.Soft?
      ensures o.Match? && o.value.Some? <==> base(context).Match?
      ensures base(context).Match? ==> o.value == Some(base(context).value) && o.rest == base(context).rest
      ensures base(context).Soft? ==> o.Match? && o.value == None && o.rest == context
      ensures base(context).Hard? ==> o.Hard? && o.error == base(context).error && o.rest == base(context).rest
    {
      match base(context)
      case Match(v, afterBase) => Match(Some(v), afterBase)
      case Soft(_) => Match(None, context)
      case Hard(e, afterBase) => Hard(e, afterBase)
    }

    /** The combinator as a parse function. */
    function AsParser(): (p: Parser<T, Option<V>>)
      ensures forall c :: p(c) == Parse(c)
    {
      c => Parse(c)
    }
  }

  /** Applies `base` as long as it matches, collecting the elements in order.
      The first soft failure of `base` ends the repetition with a match. The
      repetition's own source is not part of this model, and nothing visible
      says what a hard failure after some matches does; the model chooses to
      pass the error on, dropping the elements collected so far and leaving
      the context where the failing application left it. */
  function Many<T(!new), V>(base: Parser<T, V>, context: seq<T>): (o: Outcome<T, seq<V>>)
    requires Progressive(base)
    ensures !o.Soft?
    ensures base(context).Soft? ==> o == Match([], base(context).rest)
    ensures o.Match? && o.value != [] ==> base(context).Match? && o.value[0] == base(context).value
    decreases |context|
  {
    match base(context)
    case Soft(afterBase) => Match([], afterBase)
    case Hard(e, afterBase) => Hard(e, afterBase)
    case Match(v, afterBase) =>
      var more := Many(base, afterBase);
      if more.Hard? then Hard(more.error, more.rest) else Match([v] + more.value, more.rest)
  }

  /** `values` are the elements of `|values|` consecutive matches of `base`,
      the first on `context`, and `rest` is the context after the last one. */
  ghost predicate Repeats<T(!new), V>(base: Parser<T, V>, context: seq<T>, values: seq<V>, rest: seq<T>)
    decreases |values|
  {
    if values == [] then rest == context
    else
      && base(context).Match?
      && base(context).value == values[0]
      && Repeats(base, base(context).rest, values[1..], rest)
  }

  /** Repetition collects exactly the maximal run of matches: it matches `values`
      leaving `rest` if and only if `base` matches `|values|` times in a row
      producing `values`, ending at `rest`, and then soft-fails there. */
  lemma {:induction false} ManyMatchesExactly<T(!new), V>(
    base: Parser<T, V>, context: seq<T>, values: seq<V>, rest: seq<T>)
    requires Progressive(base) && SoftPure(base)
    ensures Many(base, context) == Match(values, rest) <==> Repeats(base, context, values, rest) && base(rest).Soft?
    decreases |context|
  {
    match base(context)
    case Soft(_) =>
    case Hard(_, _) =>
    case Match(v, afterBase) =>
      if values != [] {
        ManyMatchesExactly(base, afterBase, values[1..], rest);
        assert [values[0]] + values[1..] == values;
      }
  }

  /** Zero or more matches of `base`. */
  datatype ZeroOrMany<!T(!new), V> = ZeroOrMany(base: Parser<T, V>)
  {
    /** Never a soft failure: when `base` does not apply at all the element is
        the empty sequence. */
    function Parse(context: seq<T>): (o: Outcome<T, seq<V>>)
      requires Progressive(base)
      ensures !o.Soft?
      ensures base(context).Soft? ==> o == Match([], base(context).rest)
    {
      Many(base, context)
    }

    /** The combinator as a parse function. */
    function AsParser(): (p: Parser<T, seq<V>>)
      requires Progressive(base)
      ensures forall c :: p(c) == Parse(c)
    {
      c => Parse(c)
    }
  }

  /** One or more matches of `base`. */
  datatype OneOrMany<!T(!new), V> = OneOrMany(base: Parser<T, V>)
  {
    /** Soft-fails exactly when the first application of `base` does, leaving
        the context as `base` did; otherwise it parses as `ZeroOrMany`, and a
        match then holds at least one element. */
    function Parse(context: seq<T>): (o: Outcome<T, seq<V>>)
      requires Progressive(base)
      ensures o.Soft? <==> base(context).Soft?
      ensures o.Soft? ==> o.rest == base(context).rest
      ensures !o.Soft? ==> o == ZeroOrMany(base).Parse(context)
      ensures o.Match? ==> |o.value| >= 1
    {
      match base(context)
      case Soft(afterBase) => Soft(afterBase)
      case _ => Many(base, context)
    }

    /** The combinator as a parse function. */
    function AsParser(): (p: Parser<T, seq<V>>)
      requires Progressive(base)
      ensures forall c :: p(c) == Parse(c)
    {
      c => Parse(c)
    }
  }

  /** Applies `base` and then `transform` to its element and the context it
      left; `transform` may throw. */
  datatype Transform<!T(!new), !A, B> = Transform(base: Parser<T, A>, transform: (seq<T>, A) -> Effect<T, B>)
  {
    /** Failures of `base` are passed on unchanged. After a match, the element
        and the context are what `transform` returns, or its error is a hard
        failure at the context it left. */
    function Parse(context: seq<T>): (o: Outcome<T, B>)
      ensures o.Soft? <==> base(context).Soft?
      ensures !base(context).Match? ==> o.rest == base(context).rest
      ensures base(context).Hard? ==> o.Hard? && o.error == base(context).error
      ensures base(context).Match? ==>
        var t := transform(base(context).rest, base(context).value);
        && o.rest == t.rest
        && (o.Match? <==> t.Returned?)
        && (t.Returned? ==> o.value == t.value)
        && (t.Threw? ==> o.Hard? && o.error == t.error)
    {
      match base(context)
      case Match(a, afterBase) =>
        (match transform(afterBase, a)
         case Returned(b, afterTransform) => Match(b, afterTransform)
         case Threw(e, afterTransform) => Hard(e, afterTransform))
      case Soft(afterBase) => Soft(afterBase)
      case Hard(e, afterBase) => Hard(e, afterBase)
    }

    /** The combinator as a parse function. */
    function AsParser(): (p: Parser<T, B>)
      ensures forall c :: p(c) == Parse(c)
    {
      c => Parse(c)
    }
  }

  /** `Maybe` and `ZeroOrMany` never soft-fail; `OneOrMany` and `Transform`
      keep the context on a soft failure whenever `base` does. */
  lemma ModifiersSoftBehaviour<T(!new), A, B>(base: Parser<T, A>, transform: (seq<T>, A) -> Effect<T, B>)
    ensures NeverSoft(Maybe(base).AsParser())
    ensures Progressive(base) ==> NeverSoft(ZeroOrMany(base).AsParser())
    ensures Progressive(base) && SoftPure(base) ==> SoftPure(OneOrMany(base).AsParser())
    ensures SoftPure(base) ==> SoftPure(Transform(base, transform).AsParser())
  {
  }

  /** Repeating a `PopFirst` takes the longest prefix of the context whose
      elements it accepts, and leaves the rest. */
  lemma {:induction false} RepeatedPopTakesLeadingRun<T(!new)>(pop: PopFirst<T>, context: seq<T>)
    ensures Progressive(pop.AsParser())
    ensures var k := LeadingRun(pop.accepts, context);
      Many(pop.AsParser(), context) == Match(context[..k], context[k..])
    decreases |context|
  {
    PopFirstWellBehaved(pop);
    if context != [] && pop.accepts(context[0]) {
      RepeatedPopTakesLeadingRun(pop, context[1..]);
      var k := LeadingRun(pop.accepts, context);
      assert context[..k] == [context[0]] + context[1..][..k - 1];
      assert context[k..] == context[1..][k - 1..];
    }
  }

  /** Repetition of a base that consumes on every match and leaves the context
      alone on a soft failure never grows the context when it matches, and
      shrinks it when it matched at least once. */
  lemma {:induction false} ManyConsumes<T(!new), V>(base: Parser<T, V>, context: seq<T>)
    requires Progressive(base) && SoftPure(base)
    ensures Many(base, context).Match? ==> |Many(base, context).rest| <= |context|
    ensures Many(base, context).Match? && Many(base, context).value != [] ==>
      |Many(base, context).rest| < |context|
    decreases |context|
  {
    match base(context)
    case Soft(_) =>
    case Hard(_, _) =>
    case Match(_, afterBase) =>
      ManyConsumes(base, afterBase);
  }

  /** `+` of such a base consumes on every match, so it can itself be repeated;
      `maybe` and `*` cannot, since they match without consuming wherever the
      base does not apply. */
  lemma OneOrManyProgressive<T(!new), V>(base: Parser<T, V>)
    requires Progressive(base) && SoftPure(base)
    ensures Progressive(OneOrMany(base).AsParser())
  {
    var p := OneOrMany(base).AsParser();
    forall c | p(c).Match? ensures |p(c).rest| < |c| {
      ManyConsumes(base, c);
    }
  }

  /** `maybe` and `*` match without consuming wherever the base soft-fails
      without moving the context, so they are not `Progressive` as soon as the
      base soft-fails in place anywhere. */
  lemma OptionalNotProgressive<T(!new), V>(base: Parser<T, V>, context: seq<T>)
    requires Progressive(base) && base(context).Soft? && base(context).rest == context
    ensures !Progressive(Maybe(base).AsParser())
    ensures !Progressive(ZeroOrMany(base).AsParser())
  {
    assert Maybe(base).AsParser()(context) == Match(None, context);
    assert ZeroOrMany(base).AsParser()(context) == Match([], context);
  }
}

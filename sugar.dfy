/** The constructors that `Combinator` offers every combinator: `and`, `or`,
    `orCatch`, `map`, the postfix `+` and `*`, and the free functions `maybe`,
    `oneOf`, `oneOrMany` and `zeroOrMany`. Each builds one combinator around
    its arguments and does nothing else. */
module Sugar {
  import opened Parsing
  import opened Sequencing
  import opened Alternation
  import opened Modifiers

  /** `a.and(b)`: `Combine(a, and: b)`, whose hard failure is `HardFailure()`
      at the context `b` left. */
  function And<T(!new), A, B>(a: Parser<T, A>, b: Parser<T, B>): (r: Combine<T, A, B>)
    ensures forall c :: r.firstCombinator(c) == a(c) && r.secondCombinator(c) == b(c)
    ensures forall c :: r.makeHardFailure(c) == (HardFailure, c)
  {
    Combine.WithDefaultFailure(a, b)
  }

  /** `a.and(b, else: makeHardFailure)`: `Combine(a, and: b, else: makeHardFailure)`. */
  function AndElse<T(!new), A, B>(a: Parser<T, A>, b: Parser<T, B>, makeHardFailure: FailureMaker<T>)
    : (r: Combine<T, A, B>)
    ensures forall c :: r.firstCombinator(c) == a(c) && r.secondCombinator(c) == b(c)
    ensures forall c :: r.makeHardFailure(c) == makeHardFailure(c)
  {
    Combine(a, b, makeHardFailure)
  }

  /** `a.or(b)`: `Choose(a, or: b)`. */
  function Or<T(!new), V>(a: Parser<T, V>, b: Parser<T, V>): (r: Choose<T, V>)
    ensures forall c :: r.first(c) == a(c) && r.second(c) == b(c)
  {
    Choose(a, b)
  }

  /** `a.orCatch(andApply: b)`: `TryCatch(trying: a, orCatchingAndApplying: b)`. */
  function OrCatch<T(!new), V>(a: Parser<T, V>, b: Parser<T, V>): (r: TryCatch<T, V>)
    ensures forall c :: r.primary(c) == a(c) && r.fallback(c) == b(c)
  {
    TryCatch(a, b)
  }

  /** `a.map(transform)`: `Transform(base: a, transform: transform)`. */
  function Map<T(!new), A(!new), B>(a: Parser<T, A>, transform: (seq<T>, A) -> Effect<T, B>): (r: Transform<T, A, B>)
    ensures forall c :: r.base(c) == a(c)
    ensures forall c, x :: r.transform(c, x) == transform(c, x)
  {
    Transform(a, transform)
  }

  /** `a+` and `oneOrMany(a)`: `OneOrMany(a)`. */
  function OneOrManyOf<T(!new), V>(a: Parser<T, V>): (r: OneOrMany<T, V>)
    ensures forall c :: r.base(c) == a(c)
  {
    OneOrMany(a)
  }

  /** `a*` and `zeroOrMany(a)`: `ZeroOrMany(a)`. */
  function ZeroOrManyOf<T(!new), V>(a: Parser<T, V>): (r: ZeroOrMany<T, V>)
    ensures forall c :: r.base(c) == a(c)
  {
    ZeroOrMany(a)
  }

  /** `maybe(a)`: `Maybe(a)`. */
  function MaybeOf<T(!new), V>(a: Parser<T, V>): (r: Maybe<T, V>)
    ensures forall c :: r.base(c) == a(c)
  {
    Maybe(a)
  }

  /** `oneOf(bases)`: `ChooseN(bases)`, keeping the candidates in order. */
  function OneOf<T(!new), V>(bases: seq<Parser<T, V>>): (r: ChooseN<T, V>)
    ensures |r.bases| == |bases|
    ensures forall i, c :: 0 <= i < |bases| ==> r.bases[i](c) == bases[i](c)
  {
    ChooseN(bases)
  }
}

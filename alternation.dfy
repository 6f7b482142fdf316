/** Alternation: `Choose` (built by `or`), `TryCatch` (built by `orCatch`) and
    `ChooseN` (built by `oneOf`). Their own source files are not part of this
    model; they are modelled as far as the doc comments of their constructors
    and the scenarios that exercise them determine, taking a snapshot of the
    context before each alternative is tried. */
module Alternation {
  import opened Parsing

  /** Applies `first`, or backtracks and applies `second` when `first` soft-fails. */
  datatype Choose<!T(!new), V> = Choose(first: Parser<T, V>, second: Parser<T, V>)
  {
    /** A match or a hard failure of `first` is the outcome, context included;
        on a soft failure of `first` the outcome is what `second` does on the
        ORIGINAL context, so nothing `first` did is left behind. */
    function Parse(context: seq<T>): (o: Outcome<T, V>)
      ensures first(context).Match? ==> o == first(context)
      ensures first(context).Hard? ==> o == first(context)
      ensures first(context).Soft? ==> o == second(context)
    {
      match first(context)
      case Soft(_) => second(context)
      case _ => first(context)
    }

    /** The combinator as a parse function. */
    function AsParser(): (p: Parser<T, V>)
      ensures forall c :: p(c) == Parse(c)
    {
      c => Parse(c)
    }
  }

  /** Applies `primary`, or backtracks and applies `fallback` when `primary`
      fails in either way. */
  datatype TryCatch<!T(!new), V> = TryCatch(primary: Parser<T, V>, fallback: Parser<T, V>)
  {
    /** A match of `primary` is the outcome; on any failure of `primary`, soft
        or hard, the outcome is what `fallback` does on the original context. */
    function Parse(context: seq<T>): (o: Outcome<T, V>)
      ensures primary(context).Match? ==> o == primary(context)
      ensures !primary(context).Match? ==> o == fallback(context)
    {
      if primary(context).Match? then primary(context) else fallback(context)
    }

    /** The combinator as a parse function. */
    function AsParser(): (p: Parser<T, V>)
      ensures forall c :: p(c) == Parse(c)
    {
      c => Parse(c)
    }
  }

  /** The position of the first candidate that does not soft-fail on `context`,
      or `|bases|` when all of them do. */
  function FirstApplicable<T, V>(bases: seq<Parser<T, V>>, context: seq<T>): (k: nat)
    ensures k <= |bases|
    ensures forall j :: 0 <= j < k ==> bases[j](context).Soft?
    ensures k < |bases| ==> !bases[k](context).Soft?
  {
    if bases == [] then 0
    else if !bases[0](context).Soft? then 0
    else 1 + FirstApplicable(bases[1..], context)
  }

  /** Tries `bases` in order on the same context until one does not soft-fail:
      the outcome is that of the first candidate that applies, a match or a
      hard failure as it left the context, and no later candidate is consulted.
      When every candidate soft-fails, so does the whole, leaving the context as
      the last candidate left it (untouched when there are none). */
  function TryInOrder<T, V>(bases: seq<Parser<T, V>>, context: seq<T>): (o: Outcome<T, V>)
    ensures var k := FirstApplicable(bases, context);
      k < |bases| ==> o == bases[k](context)
    ensures FirstApplicable(bases, context) == |bases| ==>
      o.Soft? && o.rest == (if bases == [] then context else bases[|bases| - 1](context).rest)
    decreases |bases|
  {
    if bases == [] then Soft(context)
    else if |bases| == 1 || !bases[0](context).Soft? then bases[0](context)
    else
      assert bases[1..][|bases[1..]| - 1] == bases[|bases| - 1];
      TryInOrder(bases[1..], context)
  }

  /** Applies the candidates in order; the first one that applies wins. */
  datatype ChooseN<!T(!new), V> = ChooseN(bases: seq<Parser<T, V>>)
  {
    /** `parse`: every candidate is tried on the original context. The outcome
        is that of the first candidate that does not soft-fail, and no later
        candidate is consulted; when all of them soft-fail, so does `ChooseN`,
        leaving the context as the last candidate left it. */
    function Parse(context: seq<T>): (o: Outcome<T, V>)
      ensures var k := FirstApplicable(bases, context);
        k < |bases| ==> o == bases[k](context)
      ensures FirstApplicable(bases, context) == |bases| ==>
        o.Soft? && o.rest == (if bases == [] then context else bases[|bases| - 1](context).rest)
    {
      TryInOrder(bases, context)
    }

    /** The combinator as a parse function. */
    function AsParser(): (p: Parser<T, V>)
      ensures forall c :: p(c) == Parse(c)
    {
      c => Parse(c)
    }
  }

  /** `ChooseN` with two candidates is `Choose`: `oneOf([a, b])` parses exactly
      as `a.or(b)`. */
  lemma ChooseNOfTwoIsChoose<T(!new), V>(a: Parser<T, V>, b: Parser<T, V>, context: seq<T>)
    ensures ChooseN([a, b]).Parse(context) == Choose(a, b).Parse(context)
  {
    assert [a, b][1..] == [b];
    if a(context).Soft? {
      assert TryInOrder([a, b], context) == TryInOrder([b], context) == b(context);
    }
  }

  /** Backtracking confines soft failures: `Choose` and `TryCatch` keep the
      context on a soft failure whenever their last alternative does, whatever
      the first one did to it. */
  lemma AlternativesSoftPure<T(!new), V>(first: Parser<T, V>, second: Parser<T, V>)
    requires SoftPure(second)
    ensures SoftPure(Choose(first, second).AsParser())
    ensures SoftPure(TryCatch(first, second).AsParser())
  {
  }

  /** `ChooseN` keeps the context on a soft failure whenever its last candidate does. */
  lemma ChooseNSoftPure<T(!new), V>(bases: seq<Parser<T, V>>)
    requires bases != [] ==> SoftPure(bases[|bases| - 1])
    ensures SoftPure(ChooseN(bases).AsParser())
  {
  }

  /** Alternatives that all consume on every match make an alternation that
      does: whichever alternative matched, it consumed. */
  lemma AlternativesProgressive<T(!new), V>(first: Parser<T, V>, second: Parser<T, V>)
    requires Progressive(first) && Progressive(second)
    ensures Progressive(Choose(first, second).AsParser())
    ensures Progressive(TryCatch(first, second).AsParser())
  {
  }

  /** `oneOf` consumes on every match when every candidate does. */
  lemma ChooseNProgressive<T(!new), V>(bases: seq<Parser<T, V>>)
    requires forall i :: 0 <= i < |bases| ==> Progressive(bases[i])
    ensures Progressive(ChooseN(bases).AsParser())
  {
  }
}

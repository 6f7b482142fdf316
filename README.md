# Durian parser combinators, modelled in Dafny

Durian is a small parser-combinator engine. Every combinator has one operation,
`parse(&context) throws -> Element?`, with three outcomes: a value (a match),
`nil` (a soft failure: "does not apply here") or a thrown error (a hard
failure: "committed, but malformed"). The context must have value semantics,
so this model represents it as a sequence `seq<T>` and the `inout` parameter
as a sequence going in and the sequence left behind coming out.

- `Parsing` (`parsing.dfy`): the contract. `Outcome<T, V>` is
  `Match(value, rest) | Soft(rest) | Hard(error, rest)`; each case carries the
  context the call left, because a thrown error does not undo what was
  consumed. A combinator is a function value `Parser<T, V>`. Errors are
  `HardFailure` (Swift's `HardFailure()`) or `TaggedError(tag)`. The predicates
  `SoftPure` (a soft failure leaves the context alone), `NeverSoft` and
  `Progressive` (every match consumes) name three disciplines. Lemmas show
  which combinators keep each of them and under which conditions on their
  parts: `SoftPure` (or `NeverSoft`) for every combinator except `Bind`, and `Progressive` for
  `PopFirst`, erasure, `Combine`, `Bind`, the alternations and `+`, but not
  for `maybe` and `*`.
- `Popping` (`popping.dfy`): `PopFirst`, the leaf.
- `Sequencing` (`sequencing.dfy`): `Combine`, its two initialisers and its
  `first`/`second` projections.
- `Binding` (`binding.dfy`): `Bind`.
- `Erasure` (`erasure.dfy`): `AnyCombinator`, a stored parse function.
- `Alternation` and `Modifiers` (`alternation.dfy`, `modifiers.dfy`): the
  combinators that the constructors of `Combinator` build (`Choose`,
  `TryCatch`, `ChooseN`, `Maybe`, `OneOrMany`, `ZeroOrMany`, `Transform`).
  Their own source files are not part of this model. They are modelled as far
  as the doc comments of their constructors and the test scenarios fix them.
  `Choose`, `TryCatch`, `ChooseN` and `Maybe` back-track: each alternative is
  tried on the original context. Repetition ends at the first soft failure of
  its base and keeps the context that failure left. So it relies on the base
  to leave the context alone, and every lemma that relates it to the base's run of
  matches assumes `SoftPure`.
- `Sugar` (`sugar.dfy`): the constructors `and`, `or`, `orCatch`, `map`,
  postfix `+` and `*`, `maybe`, `oneOf`, `oneOrMany`, `zeroOrMany`.
- `Scenarios` (`scenarios.dfy`): the scenarios of the test suite, stated as
  lemmas over strings.

Each Swift struct is a datatype holding the struct's stored properties, and its
`Parse` function is `parse(_:)`. `AsParser()` turns it into a function value,
as `base.parse(_:)` does in Swift. `parse` in `PopFirst`, `Combine` and `Bind`
changes the `inout` context step by step. Each of them is also written as a
method `ParseInPlace` that threads the context through the same steps, and it
is proved to agree with `Parse`.

A soft failure of `Bind` can leave the context advanced. When `base` matches
and the next combinator soft-fails, `Bind.parse` returns `nil` with `base`'s
consumption still applied (`Sources/Durian/Bind.swift:24-25`).
`Binding.BindSoftFailureMayConsume` shows the case: popping `'a'` and then the
same character again on `"ab"` soft-fails and leaves `"b"`. The back-tracking
combinators `or`, `orCatch` and `oneOf` undo it before trying the next
alternative, and `maybe` undoes it by matching nothing on the original context.
A soft failure of the last alternative, though, is passed on with the context it
left (`Scenarios.LastAlternativeKeepsConsumption`).

## Model

| member | source | states |
|---|---|---|
| Parsing.Reply.At | Sources/Durian/Combinator.swift:13 | a value, `nil` or a thrown error, together with the context left, is exactly one of match, soft failure or hard failure |
| Parsing.MapValue | Sources/Durian/Combine.swift:50 | `try parse(&context)?.0` changes only the element of a match; failures and the context are kept |
| Popping.PopFirst.Parse | Sources/Durian/PopFirst.swift:16-23 | matches iff the context is non-empty and its front satisfies the predicate; the element satisfies the predicate and the context becomes the tail; otherwise a soft failure with the context unchanged; never a hard failure; the length drops by exactly one on a match, by zero otherwise |
| Popping.PopFirst.ParseInPlace | Sources/Durian/PopFirst.swift:16-23 | the in-place pop (check the front, `removeFirst`, return it) has exactly the outcome and context of `Parse` |
| Popping.PopFirstWellBehaved | Sources/Durian/PopFirst.swift:17-21 | `PopFirst` never changes the context on a soft failure and consumes on every match |
| Sequencing.Combine.WithDefaultFailure | Sources/Durian/Combine.swift:20-22 | `init(_:and:)` keeps both combinators, and its failure maker yields `HardFailure()` with the context untouched |
| Sequencing.Combine.Parse | Sources/Durian/Combine.swift:36-46 | soft iff the first soft-fails, with the first's context; match iff both match, giving the pair and the second's context; first matches and second soft-fails gives a hard failure built by `makeHardFailure` from the context the second left |
| Sequencing.Combine.ParseInPlace | Sources/Durian/Combine.swift:36-46 | threading the context through first, second and `makeHardFailure` gives exactly the outcome and context of `Parse` |
| Sequencing.Combine.First | Sources/Durian/Combine.swift:48-51 | `first` has the same context effect and the same failures as `parse`, and its element is `.0` of the pair |
| Sequencing.Combine.Second | Sources/Durian/Combine.swift:53-56 | `second` has the same context effect and the same failures as `parse`, and its element is `.1` of the pair |
| Sequencing.CombineSkipsSecond | Sources/Durian/Combine.swift:37-45 | when the first soft-fails, `Combine` soft-fails, and no choice of second combinator or failure maker changes that: they are not run |
| Sequencing.CombinePropagatesHard | Sources/Durian/Combine.swift:37-38 | a hard failure of either combinator is the outcome, error and context unchanged |
| Sequencing.DefaultFailureCommits | Sources/Durian/Combine.swift:40-41 | with the default initialiser, first matching and second soft-failing throws `HardFailure()` at the context the second left; the first's consumption is not undone |
| Sequencing.CombineSoftPure | Sources/Durian/Combine.swift:43-56 | if the first never changes the context when it soft-fails, neither does `Combine`, nor its `first` and `second` projections |
| Sequencing.CombineProgressive | Sources/Durian/Combine.swift:36-56 | if both combinators consume on every match, so do the sequence and its `first` and `second` projections |
| Sequencing.CombineAssociative | Sources/Durian/Combine.swift:36-46 | `(a and b) and c` parses as `a and (b and c)` with the pairs regrouped, each failure maker used for the same missing part |
| Binding.Bind.Parse | Sources/Durian/Bind.swift:23-29 | failures of `base` are the outcome as they are; after a match, the outcome is exactly the next combinator's on `base`'s context, its soft failure included; a throwing `makeNext` is a hard failure at that context |
| Binding.Bind.ParseInPlace | Sources/Durian/Bind.swift:23-29 | threading the context through `base` and the made combinator gives exactly the outcome and context of `Parse` |
| Binding.BindSkipsMakeNext | Sources/Durian/Bind.swift:24-28 | when `base` does not match, no other `makeNext` changes the outcome: it is not called |
| Binding.BindAssociative | Sources/Durian/Bind.swift:23-29 | binding `g` after `Bind(p, f)` parses exactly as binding, after `p`, the continuation that binds `g` after `f`'s combinator |
| Binding.BindSoftFailureMayConsume | Sources/Durian/Bind.swift:24-25 | on "ab", pop 'a' bound to a pop of the same character soft-fails leaving "b", so `Bind` does not keep soft failures free of consumption |
| Binding.BindProgressive | Sources/Durian/Bind.swift:23-29 | if `base` and every combinator `makeNext` can build consume on every match, so does `Bind` |
| Erasure.AnyCombinator.Erasing | Sources/Durian/AnyCombinator.swift:7-9 | the erased combinator's outcome (element, soft failure, error and context) is the base's on every context |
| Erasure.AnyCombinator.FromClosure | Sources/Durian/AnyCombinator.swift:12-14 | the erased combinator parses exactly as the closure on every context |
| Erasure.ErasingPreservesBehaviour | Sources/Durian/AnyCombinator.swift:16-18 | erasure keeps, in both directions, whether soft failures leave the context alone, whether soft failures happen at all, and whether every match consumes |
| Alternation.Choose.Parse | Sources/Durian/Combinator.swift:37-41 | a match or hard failure of the first is the outcome as is; on its soft failure the outcome is the second's on the original context |
| Alternation.TryCatch.Parse | Sources/Durian/Combinator.swift:43-49 | a match of the primary is the outcome; on any failure, soft or hard, the outcome is the fallback's on the original context |
| Alternation.TryInOrder | Sources/Durian/Combinator.swift:73-78 | trying the candidates in order on one context gives the outcome of the first candidate that does not soft-fail (a match or a hard failure, later candidates unused); if all soft-fail, a soft failure with the last candidate's context, or the context itself when there are none |
| Alternation.ChooseN.Parse | Sources/Durian/Combinator.swift:73-78 | `oneOf`'s `parse`: the outcome of the first candidate that does not soft-fail, on the original context; if all soft-fail, a soft failure with the last candidate's context |
| Alternation.ChooseNOfTwoIsChoose | Sources/Durian/Combinator.swift:73-78 | `oneOf([a, b])` parses exactly as `a.or(b)` |
| Alternation.AlternativesSoftPure | Sources/Durian/Combinator.swift:37-49 | `or` and `orCatch` leave the context alone on a soft failure whenever their last alternative does, whatever the first did |
| Alternation.ChooseNSoftPure | Sources/Durian/Combinator.swift:73-78 | `oneOf` leaves the context alone on a soft failure whenever its last candidate does |
| Alternation.AlternativesProgressive | Sources/Durian/Combinator.swift:37-49 | `or` and `orCatch` of two alternatives that consume on every match consume on every match |
| Alternation.ChooseNProgressive | Sources/Durian/Combinator.swift:73-78 | `oneOf` consumes on every match when every candidate does |
| Modifiers.Maybe.Parse | Sources/Durian/Combinator.swift:68-71 | never a soft failure; the element is present iff the base matches, with the base's context; a soft failure of the base gives an absent element and the original context; a hard failure passes through |
| Modifiers.Many | Sources/Durian/Combinator.swift:58-64 | repetition never soft-fails; if the base soft-fails at once the element is empty; a non-empty element starts with the base's first match |
| Modifiers.ManyMatchesExactly | Sources/Durian/Combinator.swift:58-64 | repetition matches `values` leaving `rest` iff the base matches `|values|` times in a row producing `values` and ending at `rest`, then soft-fails there |
| Modifiers.ZeroOrMany.Parse | Sources/Durian/Combinator.swift:62-64 | `*` never soft-fails, and gives the empty sequence when the base does not apply |
| Modifiers.OneOrMany.Parse | Sources/Durian/Combinator.swift:58-60 | `+` soft-fails iff the base's first attempt does, with that context; otherwise it parses as `*`, and a match holds at least one element |
| Modifiers.Transform.Parse | Sources/Durian/Combinator.swift:51-56 | failures of the base pass through; after a match the element and context are what the transform returns, or its error is a hard failure at the context it left |
| Modifiers.ModifiersSoftBehaviour | Sources/Durian/Combinator.swift:51-71 | `maybe` and `*` never soft-fail; `+` and `map` leave the context alone on a soft failure whenever their base does |
| Modifiers.ManyConsumes | Sources/Durian/Combinator.swift:58-64 | repeating a base that consumes on every match and keeps the context on a soft failure never grows the context, and shrinks it once it has matched |
| Modifiers.OneOrManyProgressive | Sources/Durian/Combinator.swift:58-60 | `+` of such a base consumes on every match, so it can be repeated again |
| Modifiers.OptionalNotProgressive | Sources/Durian/Combinator.swift:62-71 | `maybe` and `*` match without consuming wherever the base soft-fails without moving the context, so with such a base they do not consume on every match |
| Modifiers.RepeatedPopTakesLeadingRun | Sources/Durian/Combinator.swift:62-64 | repeating a `PopFirst` matches the longest prefix whose elements it accepts and leaves the remainder |
| Sugar.And | Sources/Durian/Combinator.swift:23-26 | `a.and(b)` is `Combine` of `a` and `b` with the default `HardFailure()` failure |
| Sugar.AndElse | Sources/Durian/Combinator.swift:28-35 | `a.and(b, else: f)` is `Combine` of `a` and `b` with failure maker `f` |
| Sugar.Or | Sources/Durian/Combinator.swift:37-41 | `a.or(b)` is `Choose` of `a` and `b` |
| Sugar.OrCatch | Sources/Durian/Combinator.swift:43-49 | `a.orCatch(andApply: b)` is `TryCatch` of `a` and `b` |
| Sugar.Map | Sources/Durian/Combinator.swift:51-56 | `a.map(t)` is `Transform` of `a` and `t` |
| Sugar.OneOrManyOf | Sources/Durian/Combinator.swift:58-60 | `a+` (and `oneOrMany(a)`, lines 80-83) is `OneOrMany` of `a` |
| Sugar.ZeroOrManyOf | Sources/Durian/Combinator.swift:62-64 | `a*` (and `zeroOrMany(a)`, lines 85-88) is `ZeroOrMany` of `a` |
| Sugar.MaybeOf | Sources/Durian/Combinator.swift:68-71 | `maybe(a)` is `Maybe` of `a` |
| Sugar.OneOf | Sources/Durian/Combinator.swift:73-78 | `oneOf(bases)` is `ChooseN` of the same candidates in the same order |
| Scenarios.PopFirstScenario | Tests/DurianTests/DurianTests.swift:169-176 | popping 'a' from "abc" gives 'a' and leaves "bc" |
| Scenarios.BindScenario | Tests/DurianTests/DurianTests.swift:17-25 | pop 'a' bound to a pop of the same character on "aab" gives 'a' and leaves "b" |
| Scenarios.ChooseScenarios | Tests/DurianTests/DurianTests.swift:27-69 | `or` and `oneOf` of 'a' and 'b': "abc" gives 'a' leaving "bc"; "bac" gives 'b' leaving "ac" |
| Scenarios.CombineScenarios | Tests/DurianTests/DurianTests.swift:71-99 | 'a' and 'b' on "abc" gives ('a', 'b') leaving "c"; with the error tagged 42, "ac" throws it and leaves "c" |
| Scenarios.MaybeScenarios | Tests/DurianTests/DurianTests.swift:101-119 | `maybe` of 'a': "abc" gives a present 'a' leaving "bc"; "bac" gives an absent element leaving "bac" |
| Scenarios.RepetitionScenarios | Tests/DurianTests/DurianTests.swift:149-167 | `+` and `*` of 'a' on "aabc" give "aa" leaving "bc"; on "bac" `+` soft-fails leaving "bac" and `*` gives nothing leaving "bac" (also lines 237-255) |
| Scenarios.TransformScenario | Tests/DurianTests/DurianTests.swift:195-203 | 'a' mapped to its code point gives 97 and leaves "bc" |
| Scenarios.TryCatchScenarios | Tests/DurianTests/DurianTests.swift:205-235 | ("a" and "b" joined) or-catch "b": "abc" gives "ab" leaving "c"; "bac" gives "b" leaving "ac" |
| Scenarios.LastAlternativeKeepsConsumption | Sources/Durian/Combinator.swift:37-41 | on "ab", `or` and `oneOf` whose last alternative is the consuming `Bind` soft-fail leaving "b", while `maybe` of that `Bind` matches nothing and leaves "ab" |
| Scenarios.TryCatchRecoversFromHardFailure | Sources/Durian/Combinator.swift:37-49 | on "ac", `orCatch` recovers from the committed sequence's hard failure and applies the fallback to "ac", while `or` passes the hard failure on |

## Left out

- `Modifiers.Many`: requires every match of the base to consume input. The Swift repetition loops forever on a base that can match without consuming; keeping that out is the caller's job, and the model makes it a precondition.
- `Modifiers.Many`: a hard failure of the base after some matches is passed on, with the elements collected so far dropped and the context where the failing application left it. The repetition's own source is not part of this model and no visible text fixes this case, so it is a modelling choice.
- `Modifiers.ZeroOrMany.Parse`: requires every match of the base to consume input, as for `Modifiers.Many`.
- `Modifiers.OneOrMany.Parse`: requires every match of the base to consume input, as for `Modifiers.Many`.
- The source files of `Choose`, `ChooseN`, `TryCatch`, `Maybe`, `OneOrMany`, `ZeroOrMany`, `Transform` and `Apply` are not part of this model. Their behaviour is taken from the doc comments in `Combinator.swift` and from the test scenarios. Where neither says what happens, the model chooses. Repetition does not restore the context after the final soft failure, and `ChooseN` passes on the last candidate's soft failure as it is. Both choices agree with restoring whenever the base or candidate leaves the context alone on a soft failure, which is what the lemmas assume.
- `Apply` is used in the core sources only inside `Combine.first` and `Combine.second`, where it is the identity on a parse function. Its own source is not part of this model, so the test `testApply` (`Tests/DurianTests/DurianTests.swift:6-15`, a closure that pops any character) is not modelled either.
- `Recursive` and its lazy self-binding through a Swift `static let` are not modelled. A recursive grammar rule would need a termination argument that the Swift code does not have.
- `andCollapsingSoftFailures` and the `Restorable` protocol are not modelled. The context is a value here, so a backup is the old sequence itself.
- Swift's associated types, the existential `Error` type and escaping closures are left out. Errors are two cases, `HardFailure` and `TaggedError(tag)`. `Int` tags are unbounded integers.
- The context's element type is abstract. Unicode details of `Character` and `Substring` are left out. The scenarios use Dafny `char`, and `asciiValue` becomes the code point of an ASCII character.

/** The scenarios of the repository's test suite, on a context of characters
    with combinators that pop one given character. */
module Scenarios {
  import opened Parsing
  import opened Popping
  import opened Sequencing
  import opened Binding
  import opened Alternation
  import opened Modifiers
  import opened Sugar

  /** `PopFirst<Substring>(if: { $0 == ch })`. */
  function Pop(ch: char): (p: PopFirst<char>)
    ensures forall x :: p.accepts(x) <==> x == ch
  {
    PopFirst((x: char) => x == ch)
  }

  /** `String(character)`, as a transform that leaves the context alone. */
  function AsString(context: seq<char>, ch: char): (e: Effect<char, string>)
  {
    Returned([ch], context)
  }

  /** Joins the two strings of a pair, leaving the context alone. */
  function Concatenated(context: seq<char>, pair: (string, string)): (e: Effect<char, string>)
  {
    Returned(pair.0 + pair.1, context)
  }

  /** `character.asciiValue!` for a character that is ASCII: its code point. */
  function Code(context: seq<char>, ch: char): (e: Effect<char, int>)
  {
    Returned(ch as int, context)
  }

  /** Popping 'a' from "abc" gives 'a' and leaves "bc". */
  lemma PopFirstScenario()
    ensures Pop('a').Parse("abc") == Match('a', "bc")
  {
  }

  /** Popping 'a' and then popping the same character again, on "aab", gives
      'a' and leaves "b". */
  lemma BindScenario()
    ensures Bind(Pop('a').AsParser(), (ch: char) => Ok(Pop(ch).AsParser())).Parse("aab") == Match('a', "b")
  {
  }

  /** 'a' or 'b': "abc" gives 'a' leaving "bc"; "bac" gives 'b' leaving "ac";
      `oneOf` does the same. */
  lemma ChooseScenarios()
    ensures Or(Pop('a').AsParser(), Pop('b').AsParser()).Parse("abc") == Match('a', "bc")
    ensures Or(Pop('a').AsParser(), Pop('b').AsParser()).Parse("bac") == Match('b', "ac")
    ensures OneOf([Pop('a').AsParser(), Pop('b').AsParser()]).Parse("abc") == Match('a', "bc")
    ensures OneOf([Pop('a').AsParser(), Pop('b').AsParser()]).Parse("bac") == Match('b', "ac")
  {
    ChooseNOfTwoIsChoose(Pop('a').AsParser(), Pop('b').AsParser(), "abc");
    ChooseNOfTwoIsChoose(Pop('a').AsParser(), Pop('b').AsParser(), "bac");
  }

  /** 'a' and 'b' on "abc" gives the pair ('a', 'b') and leaves "c"; with the
      error tagged 42 as its failure, on "ac" it throws that error and leaves
      "c", where 'a' was consumed and 'b' did not apply. */
  lemma CombineScenarios()
    ensures And(Pop('a').AsParser(), Pop('b').AsParser()).Parse("abc") == Match(('a', 'b'), "c")
    ensures AndElse(Pop('a').AsParser(), Pop('b').AsParser(), (c: seq<char>) => (TaggedError(42), c)).Parse("ac")
         == Hard(TaggedError(42), "c")
  {
  }

  /** `maybe` of 'a': "abc" gives a present 'a' leaving "bc"; "bac" gives an
      absent element and leaves "bac". */
  lemma MaybeScenarios()
    ensures MaybeOf(Pop('a').AsParser()).Parse("abc") == Match(Some('a'), "bc")
    ensures MaybeOf(Pop('a').AsParser()).Parse("bac") == Match(None, "bac")
  {
  }

  /** 'a' repeated: on "aabc" both `+` and `*` give "aa" and leave "bc"; on
      "bac" `+` soft-fails leaving "bac" and `*` gives nothing, leaving "bac". */
  lemma RepetitionScenarios()
    ensures Progressive(Pop('a').AsParser())
    ensures OneOrManyOf(Pop('a').AsParser()).Parse("aabc") == Match("aa", "bc")
    ensures OneOrManyOf(Pop('a').AsParser()).Parse("bac") == Soft("bac")
    ensures ZeroOrManyOf(Pop('a').AsParser()).Parse("aabc") == Match("aa", "bc")
    ensures ZeroOrManyOf(Pop('a').AsParser()).Parse("bac") == Match([], "bac")
  {
    var a := Pop('a');
    RepeatedPopTakesLeadingRun(a, "aabc");
    RepeatedPopTakesLeadingRun(a, "bac");
    assert LeadingRun(a.accepts, "bac") == 0;
    assert LeadingRun(a.accepts, "c") == 0;
    assert LeadingRun(a.accepts, "bc") == 0;
    assert LeadingRun(a.accepts, "abc") == 1;
    assert LeadingRun(a.accepts, "aabc") == 2;
    assert "aabc"[..2] == "aa" && "aabc"[2..] == "bc";
  }

  /** 'a' mapped to its code point: "abc" gives 97 and leaves "bc". */
  lemma TransformScenario()
    ensures Map(Pop('a').AsParser(), Code).Parse("abc") == Match(97, "bc")
  {
  }

  /** 'a' and 'b' joined into one string, or else 'b': "abc" gives "ab" and
      leaves "c"; on "bac" the sequence fails (softly: 'a' does not apply) and
      the fallback gives "b", leaving "ac". */
  lemma TryCatchScenarios()
    ensures
      var a := Map(Pop('a').AsParser(), AsString).AsParser();
      var b := Map(Pop('b').AsParser(), AsString).AsParser();
      var ab := Map(And(a, b).AsParser(), Concatenated).AsParser();
      && OrCatch(ab, b).Parse("abc") == Match("ab", "c")
      && OrCatch(ab, b).Parse("bac") == Match("b", "ac")
  {
    var a := Map(Pop('a').AsParser(), AsString).AsParser();
    var b := Map(Pop('b').AsParser(), AsString).AsParser();
    assert a("abc") == Match("a", "bc");
    assert b("bc") == Match("b", "c");
    assert "a" + "b" == "ab";
  }

  /** The fallback also recovers from a hard failure: on "ac", 'a' and 'b'
      commits and throws, and `orCatch` backtracks to "ac" and applies its
      fallback, whereas `or` passes the hard failure on. */
  lemma TryCatchRecoversFromHardFailure()
    ensures
      var ab := And(Pop('a').AsParser(), Pop('b').AsParser()).First();
      && OrCatch(ab, Pop('a').AsParser()).Parse("ac") == Match('a', "c")
      && Or(ab, Pop('a').AsParser()).Parse("ac") == Hard(HardFailure, "c")
  {
  }

  /** Back-tracking undoes what a soft-failing alternative consumed only when
      another alternative follows: with the consuming `Bind` of
      `BindSoftFailureMayConsume` as the last alternative, `or` and `oneOf`
      soft-fail on "ab" leaving "b"; `maybe` of it matches nothing on "ab". */
  lemma LastAlternativeKeepsConsumption()
    ensures
      var x := Pop('x').AsParser();
      var aa := Bind(Pop('a').AsParser(), (ch: char) => Ok(Pop(ch).AsParser())).AsParser();
      && Or(x, aa).Parse("ab") == Soft("b")
      && OneOf([x, aa]).Parse("ab") == Soft("b")
      && MaybeOf(aa).Parse("ab") == Match(None, "ab")
  {
    var x := Pop('x').AsParser();
    var aa := Bind(Pop('a').AsParser(), (ch: char) => Ok(Pop(ch).AsParser())).AsParser();
    assert Pop('a').Parse("ab") == Match('a', "b");
    assert aa("ab") == Soft("b");
    ChooseNOfTwoIsChoose(x, aa, "ab");
  }
}

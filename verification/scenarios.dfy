/** The crate's own example expressions, run through the expression layer
    with the evaluator families of this model. Parsing a number is the
    standard library's `from_str`, which is not part of this model: each
    scenario takes the operand conversion as a parameter and states what it
    must read. */
module Scenarios {
  import opened Wrappers
  import opened Stacks
  import opened Expression
  import TC = TwosComplement
  import IE = IntEvaluator
  import DV = DummyVariable
  import FE = FloatEvaluator
  import IV = IndexVariable
  import VI = VarIndex
  import CE = CustomExpression
  import opened FloatArith
  import opened GetVariable
  import opened PopTwo
  import UsizeFromStr

  /** The conversions of `IntExpression<T>`: the given number parser, no
      variables, and the integer evaluators. */
  function IntParsers<OE>(number: string -> Result<int, OE>): Parsers<int, DV.Dummy, IE.Op, OE, (), IE.ParseErr>
  {
    Parsers(number, DV.TryFromRef, IE.TryFromRef)
  }

  /** A number parser that reads the decimal numerals used below. */
  predicate ReadsNumerals<OE>(number: string -> Result<int, OE>)
  {
    && number("2") == Ok(2) && number("3") == Ok(3) && number("4") == Ok(4)
  }

  /** The tokens of `3 4 +`. */
  function AdditionTokens(): seq<Token<int, DV.Dummy, IE.Op>>
  {
    [Operand(3), Operand(4), Evaluator(IE.Add)]
  }

  /** `3 4 +` ends with one value after holding two; `4 +` runs short;
      `3 3 4 +` ends with two. */
  lemma ArityPlan(bits: TC.Bits)
    ensures Simulate(IE.Evaluators(bits).arity, AdditionTokens(), 0) == Some(1)
    ensures MaxDepth(IE.Evaluators(bits).arity, AdditionTokens()) == 2
    ensures Simulate(IE.Evaluators(bits).arity, AdditionTokens()[1..], 0).None?
    ensures Simulate(IE.Evaluators(bits).arity, [Operand(3)] + AdditionTokens(), 0) == Some(2)
  {
    var t := AdditionTokens();
    assert t[1..] == [Operand(4), Evaluator(IE.Add)] && t[1..][1..] == [Evaluator(IE.Add)];
    assert t[1..][1..][1..] == [];
    assert ([Operand(3)] + t)[1..] == t;
  }

  /** How the integer conversions read the tokens used below. */
  lemma ClassifiesTokens<OE>(number: string -> Result<int, OE>)
    requires ReadsNumerals(number)
    ensures Classify(IntParsers(number), "2") == Ok(Operand(2))
    ensures Classify(IntParsers(number), "3") == Ok(Operand(3))
    ensures Classify(IntParsers(number), "4") == Ok(Operand(4))
    ensures Classify(IntParsers(number), "+") == Ok(Evaluator(IE.Add))
    ensures Classify(IntParsers(number), "*") == Ok(Evaluator(IE.Mul))
  {
    assert IE.TryFromRef("2").Err? && IE.TryFromRef("3").Err? && IE.TryFromRef("4").Err?;
  }

  /** `3 4 +` builds, plans a stack of two values and evaluates to 7;
      `4 +` lacks an operand; `3 3 4 +` has one too many. */
  lemma ArityExamples<OE>(number: string -> Result<int, OE>, bits: TC.Bits)
    requires ReadsNumerals(number)
    ensures Build(IntParsers(number), IE.Evaluators(bits).arity, ["3", "4", "+"])
         == Ok(Expr(AdditionTokens(), 2))
    ensures Build(IntParsers(number), IE.Evaluators(bits).arity, ["4", "+"])
         == Err(OperandErr(NotEnoughOperands))
    ensures Build(IntParsers(number), IE.Evaluators(bits).arity, ["3", "3", "4", "+"])
         == Err(OperandErr(TooManyOperands))
  {
    var p := IntParsers(number);
    var t := AdditionTokens();
    ArityPlan(bits);
    ClassifiesTokens(number);
    ClassifyAllPointwise(p, ["3", "4", "+"], t);
    ClassifyAllPointwise(p, ["4", "+"], t[1..]);
    ClassifyAllPointwise(p, ["3", "3", "4", "+"], [Operand(3)] + t);
  }

  /** The variable lookup of an expression without variables. */
  function NoVariables(v: DV.Dummy): Option<int>
  {
    None
  }

  /** The `+` evaluator on `a b`: their sum, or the overflow error. */
  lemma AddEvaluates(bits: TC.Bits, a: int, b: int)
    requires TC.InRange(bits, a) && TC.InRange(bits, b)
    ensures IE.Evaluators(bits).evaluate.requires(IE.Add, Push(Push(WithCapacity(2), a), b))
    ensures IE.Evaluators(bits).evaluate(IE.Add, Push(Push(WithCapacity(2), a), b))
         == if TC.InRange(bits, a + b) then Ok(Push(WithCapacity(2), a + b)) else Err(IE.AddOverflow(a, b))
  {
    IE.BinaryOnTwoPushes(bits, IE.Add, WithCapacity(2), a, b);
  }

  /** Replaying the `+` token on `a b` gives their sum or stops with the
      overflow error. */
  lemma AddReplays(bits: TC.Bits, a: int, b: int)
    requires TC.InRange(bits, a) && TC.InRange(bits, b)
    ensures Replay(IE.Evaluators(bits), NoVariables, [Evaluator(IE.Add)], Push(Push(WithCapacity(2), a), b))
         == if TC.InRange(bits, a + b) then Ok(Push(WithCapacity(2), a + b))
            else Err(EvaluatorErr(IE.AddOverflow(a, b)))
  {
    AddEvaluates(bits, a, b);
    IE.TwoPushesInRange(bits, WithCapacity(2), a, b);
  }

  /** `3 4 +` evaluates to 7 on any width holding 7. */
  lemma AdditionExample(bits: TC.Bits)
    requires 7 <= TC.Max(bits)
    ensures Evaluate(IE.Evaluators(bits), NoVariables, Expr(AdditionTokens(), 2)) == Ok(7)
  {
    var s0: Stack<int> := WithCapacity(2);
    var t1 := AdditionTokens();
    AddReplays(bits, 3, 4);
    assert t1[1..] == [Operand(4), Evaluator(IE.Add)] && t1[1..][1..] == [Evaluator(IE.Add)];
    PushThenPop(s0, 7);
  }

  /** `125 20 +` on `i8` stops with the evaluator's overflow error. */
  lemma OverflowExample(bits: TC.Bits)
    requires TC.Min(bits) == -0x80 && TC.Max(bits) == 0x7F
    ensures Evaluate(IE.Evaluators(bits), NoVariables, Expr([Operand(125), Operand(20), Evaluator(IE.Add)], 2))
         == Err(EvaluatorErr(IE.AddOverflow(125, 20)))
  {
    var t1: seq<Token<int, DV.Dummy, IE.Op>> := [Operand(125), Operand(20), Evaluator(IE.Add)];
    AddReplays(bits, 125, 20);
    assert t1[1..] == [Operand(20), Evaluator(IE.Add)] && t1[1..][1..] == [Evaluator(IE.Add)];
  }

  /** `3 4 + &`: the last token is no integer evaluator, no variable and no
      number, and the error carries the evaluator conversion's reason. */
  lemma BadOperatorExample<OE>(number: string -> Result<int, OE>, bits: TC.Bits)
    requires ReadsNumerals(number) && number("&").Err?
    ensures Build(IntParsers(number), IE.Evaluators(bits).arity, ["3", "4", "+", "&"])
         == Err(InvalidToken(number("&").error, (), IE.InvalidExpr("&")))
  {
    var p := IntParsers(number);
    var words: seq<string> := ["3", "4", "+", "&"];
    assert Classify(p, words[0]).Ok? && Classify(p, words[1]).Ok? && Classify(p, words[2]).Ok?;
    assert Classify(p, words[3]) == Err(InvalidToken(number("&").error, (), IE.InvalidExpr("&")));
  }

  /** The tokens of `3 4 + 2 *`. */
  function CapacityTokens(): seq<Token<int, DV.Dummy, IE.Op>>
  {
    [Operand(3), Operand(4), Evaluator(IE.Add), Operand(2), Evaluator(IE.Mul)]
  }

  /** `3 4 + 2 *` never holds more than two values and ends with one. */
  lemma CapacityPlan(bits: TC.Bits)
    ensures Simulate(IE.Evaluators(bits).arity, CapacityTokens(), 0) == Some(1)
    ensures MaxDepth(IE.Evaluators(bits).arity, CapacityTokens()) == 2
  {
    var ar := IE.Evaluators(bits).arity;
    var t := CapacityTokens();
    assert t[1..] == [Operand(4), Evaluator(IE.Add), Operand(2), Evaluator(IE.Mul)];
    assert t[2..] == [Evaluator(IE.Add), Operand(2), Evaluator(IE.Mul)];
    assert t[3..] == [Operand(2), Evaluator(IE.Mul)] && t[4..] == [Evaluator(IE.Mul)] && t[5..] == [];
    assert t[1..][1..] == t[2..] && t[2..][1..] == t[3..] && t[3..][1..] == t[4..] && t[4..][1..] == t[5..];
  }

  /** `3 4 + 2 *` builds and plans a stack of two values. */
  lemma CapacityExample<OE>(number: string -> Result<int, OE>, bits: TC.Bits)
    requires ReadsNumerals(number)
    ensures Build(IntParsers(number), IE.Evaluators(bits).arity, ["3", "4", "+", "2", "*"])
         == Ok(Expr(CapacityTokens(), 2))
  {
    ClassifiesTokens(number);
    ClassifyAllPointwise(IntParsers(number), ["3", "4", "+", "2", "*"], CapacityTokens());
    CapacityPlan(bits);
  }

  /** The words of `3 3 + neg neg 4 +`. */
  function ToStringWords(): seq<string>
  {
    ["3", "3", "+", "neg", "neg", "4", "+"]
  }

  /** The tokens of `3 3 + neg neg 4 +`. */
  function ToStringTokens(): seq<Token<int, DV.Dummy, IE.Op>>
  {
    [Operand(3), Operand(3), Evaluator(IE.Add), Evaluator(IE.Neg), Evaluator(IE.Neg), Operand(4), Evaluator(IE.Add)]
  }

  /** The canonical texts of the integer expression's tokens: the given
      number rendering, and the evaluators' symbols. `DummyVariable`'s
      `Display` always fails; no token of such an expression is a
      variable, so the empty text stands in for it. */
  function IntShows(number: int -> string): Shows<int, DV.Dummy, IE.Op>
  {
    Shows(number, (v: DV.Dummy) => "", IE.Display)
  }

  /** `3 3 + neg neg 4 +` never runs short and ends with one value. */
  lemma ToStringPlan(bits: TC.Bits)
    ensures Validate(IE.Evaluators(bits).arity, ToStringTokens()).Ok?
  {
    var ar := IE.Evaluators(bits).arity;
    var t := ToStringTokens();
    assert t[1..] == [Operand(3), Evaluator(IE.Add), Evaluator(IE.Neg), Evaluator(IE.Neg), Operand(4), Evaluator(IE.Add)];
    assert t[2..] == [Evaluator(IE.Add), Evaluator(IE.Neg), Evaluator(IE.Neg), Operand(4), Evaluator(IE.Add)];
    assert t[3..] == [Evaluator(IE.Neg), Evaluator(IE.Neg), Operand(4), Evaluator(IE.Add)];
    assert t[4..] == [Evaluator(IE.Neg), Operand(4), Evaluator(IE.Add)];
    assert t[5..] == [Operand(4), Evaluator(IE.Add)] && t[6..] == [Evaluator(IE.Add)] && t[7..] == [];
    assert t[1..][1..] == t[2..] && t[2..][1..] == t[3..] && t[3..][1..] == t[4..];
    assert t[4..][1..] == t[5..] && t[5..][1..] == t[6..] && t[6..][1..] == t[7..];
  }

  /** Each word of `3 3 + neg neg 4 +` is read as its token. */
  lemma ToStringClassifies<OE>(number: string -> Result<int, OE>)
    requires number("3") == Ok(3) && number("4") == Ok(4)
    ensures ClassifyAll(IntParsers(number), ToStringWords()) == Ok(ToStringTokens())
  {
    var p := IntParsers(number);
    assert Classify(p, "3") == Ok(Operand(3)) by {
      assert IE.TryFromRef("3").Err?;
    }
    assert Classify(p, "4") == Ok(Operand(4)) by {
      assert IE.TryFromRef("4").Err?;
    }
    assert Classify(p, "+") == Ok(Evaluator(IE.Add)) by {
      IE.DisplayThenParse(IE.Add);
    }
    assert Classify(p, "neg") == Ok(Evaluator(IE.Neg)) by {
      IE.DisplayThenParse(IE.Neg);
    }
    ClassifyAllPointwise(p, ToStringWords(), ToStringTokens());
  }

  /** `3 3 + neg neg 4 +` builds into its seven tokens. */
  lemma ToStringBuilds<OE>(number: string -> Result<int, OE>, bits: TC.Bits)
    requires number("3") == Ok(3) && number("4") == Ok(4)
    ensures Build(IntParsers(number), IE.Evaluators(bits).arity, ToStringWords()).Ok?
    ensures Build(IntParsers(number), IE.Evaluators(bits).arity, ToStringWords()).value.tokens == ToStringTokens()
  {
    ToStringClassifies(number);
    ToStringPlan(bits);
  }

  /** Each word of `3 3 + neg neg 4 +` renders the way it parses. */
  lemma ToStringInverts<OE>(number: string -> Result<int, OE>, show: int -> string)
    requires number("3") == Ok(3) && number("4") == Ok(4) && number("+").Err? && number("neg").Err?
    requires show(3) == "3" && show(4) == "4"
    ensures InvertsOn(IntParsers(number), IntShows(show), ToStringWords())
  {
    var w := ToStringWords();
    forall i | 0 <= i < |w|
      ensures IE.TryFromRef(w[i]).Ok? ==> IE.Display(IE.TryFromRef(w[i]).value) == w[i]
      ensures w[i] == "3" || w[i] == "4" || w[i] == "+" || w[i] == "neg"
    {
    }
  }

  /** The seven words joined by single spaces. */
  lemma ToStringJoin()
    ensures Join(ToStringWords()) == "3 3 + neg neg 4 +"
  {
    var w := ToStringWords();
    assert w[1..] == ["3", "+", "neg", "neg", "4", "+"];
    assert w[1..][1..] == ["+", "neg", "neg", "4", "+"];
    assert w[1..][1..][1..] == ["neg", "neg", "4", "+"];
    assert w[1..][1..][1..][1..] == ["neg", "4", "+"];
    assert w[1..][1..][1..][1..][1..] == ["4", "+"];
    assert w[1..][1..][1..][1..][1..][1..] == ["+"];
  }

  /** The source's `to_string` test: `3 3 + neg neg 4 +` builds, and
      rendering it gives the same text back, for a number parser and
      rendering that agree on "3" and "4" and a parser that reads neither
      "+" nor "neg" as a number. */
  lemma ToStringExample<OE>(number: string -> Result<int, OE>, show: int -> string, bits: TC.Bits)
    requires number("3") == Ok(3) && number("4") == Ok(4) && number("+").Err? && number("neg").Err?
    requires show(3) == "3" && show(4) == "4"
    ensures Build(IntParsers(number), IE.Evaluators(bits).arity, ToStringWords()).Ok?
    ensures Join(Render(IntShows(show), Build(IntParsers(number), IE.Evaluators(bits).arity, ToStringWords()).value.tokens))
         == "3 3 + neg neg 4 +"
  {
    ToStringBuilds(number, bits);
    ToStringInverts(number, show);
    RenderRoundTrip(IntParsers(number), IntShows(show), IE.Evaluators(bits).arity, ToStringWords());
    ToStringJoin();
  }

  /** The lookup of `evaluate_with_variables` over a `Vec`: the variable's
      index into the vector. */
  function VecLookup<T>(vars: seq<T>): VI.VarIdx -> Option<T>
  {
    v => VecGet(vars, VI.ToUsize(v))
  }

  /** `$0` names the first variable. */
  lemma FirstVariable()
    ensures IV.TryFromRef("$0") == Ok(IV.IndexVar(0))
  {
    IV.RoundTrip(0);
    assert "$" + UsizeFromStr.Decimal(0) == "$0";
  }

  /** A binary float evaluator token on `a b`, followed by `rest`, runs
      the operation with `a` pushed first and continues with `rest`. */
  lemma BinaryStep<T(!new), V>(arith: Arith<T>, lookup: V -> Option<T>, op: FE.Op,
                               rest: seq<Token<T, V, FE.Op>>, s: Stack<T>, a: T, b: T)
    requires op == FE.Add || op == FE.Sub
    ensures Replay(FE.Evaluators(arith), lookup, [Evaluator(op)] + rest, Push(Push(s, a), b))
         == Replay(FE.Evaluators(arith), lookup, rest, Push(s, FE.Binary(arith, op, a, b)[0]))
  {
    assert ([Evaluator(op)] + rest)[1..] == rest;
    FE.BinaryOnTwoPushes(arith, op, s, a, b);
  }

  /** `$0 -` on a stack topped by `x`, where `$0` names `v`: pushes `v`
      and subtracts it from `x`. */
  lemma SubtractVariable<T(!new), V>(arith: Arith<T>, lookup: V -> Option<T>, name: V, s: Stack<T>, x: T, v: T)
    requires lookup(name) == Some(v)
    ensures Replay(FE.Evaluators(arith), lookup, [Variable(name), Evaluator(FE.Sub)], Push(s, x))
         == Ok(Push(s, arith.sub(x, v)))
  {
    var tail: seq<Token<T, V, FE.Op>> := [Variable(name), Evaluator(FE.Sub)];
    assert tail[1..] == [Evaluator(FE.Sub)] + [];
    BinaryStep(arith, lookup, FE.Sub, [], s, x, v);
  }

  /** The conversions of `VariableFloatExpr<T, VarIdx>`: the given number
      parser, `VarIdx`, and the float evaluators. */
  function FloatParsers<T, OE>(number: string -> Result<T, OE>)
    : Parsers<T, VI.VarIdx, FE.Op, OE, IV.VarIdxErr, FE.ParseErr>
  {
    Parsers(number, VI.TryFromRef, FE.TryFromRef)
  }

  /** The tokens of `3 4 + $0 -`. */
  function VariableTokens<T>(three: T, four: T): seq<Token<T, VI.VarIdx, FE.Op>>
  {
    [Operand(three), Operand(four), Evaluator(FE.Add), Variable(VI.VarIdx(0)), Evaluator(FE.Sub)]
  }

  /** `$0` is read as the variable of index 0. */
  lemma FirstVarIdx()
    ensures VI.TryFromRef("$0") == Ok(VI.VarIdx(0))
  {
    VI.RoundTrip(0);
    assert "$" + UsizeFromStr.Decimal(0) == "$0";
  }

  /** Each word of `3 4 + $0 -` is read as its token: the numerals as
      operands, `$0` as a variable (no float evaluator is written `$0`),
      `+` and `-` as evaluators. */
  lemma VariableClassifies<T, OE>(number: string -> Result<T, OE>, three: T, four: T)
    requires number("3") == Ok(three) && number("4") == Ok(four)
    ensures ClassifyAll(FloatParsers(number), ["3", "4", "+", "$0", "-"]) == Ok(VariableTokens(three, four))
  {
    var p := FloatParsers(number);
    assert Classify(p, "3") == Ok(Operand(three)) by {
      assert FE.TryFromRef("3").Err? && VI.TryFromRef("3").Err?;
    }
    assert Classify(p, "4") == Ok(Operand(four)) by {
      assert FE.TryFromRef("4").Err? && VI.TryFromRef("4").Err?;
    }
    assert Classify(p, "+") == Ok(Evaluator(FE.Add)) by {
      FE.DisplayThenParse(FE.Add);
    }
    assert Classify(p, "-") == Ok(Evaluator(FE.Sub)) by {
      FE.DisplayThenParse(FE.Sub);
    }
    assert Classify(p, "$0") == Ok(Variable(VI.VarIdx(0))) by {
      assert FE.TryFromRef("$0").Err?;
      FirstVarIdx();
    }
    ClassifyAllPointwise(p, ["3", "4", "+", "$0", "-"], VariableTokens(three, four));
  }

  /** `3 4 + $0 -` ends with one value and never holds more than two. */
  lemma VariablePlan<T(!new)>(arith: Arith<T>, three: T, four: T)
    ensures Validate(FE.Evaluators(arith).arity, VariableTokens(three, four)).Ok?
    ensures MaxDepth(FE.Evaluators(arith).arity, VariableTokens(three, four)) == 2
  {
    var t := VariableTokens(three, four);
    assert t[1..] == [Operand(four), Evaluator(FE.Add), Variable(VI.VarIdx(0)), Evaluator(FE.Sub)];
    assert t[2..] == [Evaluator(FE.Add), Variable(VI.VarIdx(0)), Evaluator(FE.Sub)];
    assert t[3..] == [Variable(VI.VarIdx(0)), Evaluator(FE.Sub)] && t[4..] == [Evaluator(FE.Sub)] && t[5..] == [];
    assert t[1..][1..] == t[2..] && t[2..][1..] == t[3..] && t[3..][1..] == t[4..] && t[4..][1..] == t[5..];
    var ar := FE.Evaluators(arith).arity;
    assert ar.needed(FE.Add) == 2 && ar.generated(FE.Add) == 1;
    assert ar.needed(FE.Sub) == 2 && ar.generated(FE.Sub) == 1;
    assert Simulate(ar, t[4..], 2) == Some(1);
    assert Simulate(ar, t[3..], 1) == Some(1);
    assert Simulate(ar, t[2..], 2) == Some(1);
    assert Simulate(ar, t[1..], 1) == Some(1);
    assert MaxFrom(ar, t[4..], 2) == 2;
    assert MaxFrom(ar, t[3..], 1) == 2;
    assert MaxFrom(ar, t[2..], 2) == 2;
    assert MaxFrom(ar, t[1..], 1) == 2;
  }

  /** `3 4 + $0 -` builds into its five tokens with a planned stack of two. */
  lemma VariableBuilds<T(!new), OE>(arith: Arith<T>, number: string -> Result<T, OE>, three: T, four: T)
    requires number("3") == Ok(three) && number("4") == Ok(four)
    ensures Build(FloatParsers(number), FE.Evaluators(arith).arity, ["3", "4", "+", "$0", "-"])
         == Ok(Expr(VariableTokens(three, four), 2))
  {
    VariableClassifies(number, three, four);
    VariablePlan(arith, three, four);
  }

  /** The tokens of `3 4 + $0 -` with the variables `[3, 500]`: the sum
      `3 + 4` is pushed first and the variable second, so the result is
      `(3 + 4) - 3`. */
  lemma VariableTokensEvaluate<T(!new)>(arith: Arith<T>, three: T, four: T, fivehundred: T)
    ensures Evaluate(FE.Evaluators(arith), VecLookup([three, fivehundred]), Expr(VariableTokens(three, four), 2))
         == Ok(arith.sub(arith.add(three, four), three))
  {
    var f := FE.Evaluators(arith);
    var lookup := VecLookup([three, fivehundred]);
    var s0: Stack<T> := WithCapacity(2);
    var sum := arith.add(three, four);
    var tail: seq<Token<T, VI.VarIdx, FE.Op>> := [Variable(VI.VarIdx(0)), Evaluator(FE.Sub)];
    var t := VariableTokens(three, four);
    assert Replay(f, lookup, t[2..], Push(Push(s0, three), four)) == Ok(Push(s0, arith.sub(sum, three))) by {
      assert t[2..] == [Evaluator(FE.Add)] + tail;
      BinaryStep(arith, lookup, FE.Add, tail, s0, three, four);
      SubtractVariable(arith, lookup, VI.VarIdx(0), s0, sum, three);
    }
    assert Replay(f, lookup, t, s0) == Replay(f, lookup, t[2..], Push(Push(s0, three), four)) by {
      assert t[1..][1..] == t[2..];
    }
    PushThenPop(s0, arith.sub(sum, three));
  }

  /** The source's variable test: the text `3 4 + $0 -`, read with `VarIdx`
      and a number parser reading "3" and "4", builds, and evaluating it
      over the variables `[3, 500]` gives `(3 + 4) - 3`. */
  lemma VariableExample<T(!new), OE>(arith: Arith<T>, number: string -> Result<T, OE>, three: T, four: T, fivehundred: T)
    requires number("3") == Ok(three) && number("4") == Ok(four)
    ensures Build(FloatParsers(number), FE.Evaluators(arith).arity, ["3", "4", "+", "$0", "-"]).Ok?
    ensures Evaluate(FE.Evaluators(arith), VecLookup([three, fivehundred]),
                     Build(FloatParsers(number), FE.Evaluators(arith).arity, ["3", "4", "+", "$0", "-"]).value)
         == Ok(arith.sub(arith.add(three, four), three))
  {
    VariableBuilds(arith, number, three, four);
    VariableTokensEvaluate(arith, three, four, fivehundred);
  }

  /** The float evaluators never fail once their operands are there, so
      every valid float expression whose variables all resolve evaluates
      to the single value its replay leaves: no error, no underflow and no
      panic can reach the caller. */
  lemma FloatExpressionsEvaluate<T(!new), V>(arith: Arith<T>, lookup: V -> Option<T>, e: Expr<T, V, FE.Op>)
    requires Expression.Valid(FE.Evaluators(arith).arity, e) && Resolves(lookup, e.tokens)
    ensures Replay(FE.Evaluators(arith), lookup, e.tokens, New()).Ok?
    ensures Evaluate(FE.Evaluators(arith), lookup, e)
         == Ok(Replay(FE.Evaluators(arith), lookup, e.tokens, New()).value.items[0])
  {
    var f := FE.Evaluators(arith);
    assert NeverFails(f, e.tokens) by {
      forall op, st | Evaluator(op) in e.tokens && f.arity.needed(op) <= Len(st)
        ensures f.defined(op, st) && f.evaluate.requires(op, st) && f.evaluate(op, st).Ok?
      {
      }
    }
    EvaluateSucceeds(f, lookup, e);
  }

  /** The conversions of the custom expression type: its two numerals, no
      variables, and its two evaluators. */
  function CustomParsers(): Parsers<CE.MyOperand, DV.Dummy, CE.MyEvaluator, CE.MyOperandErr, (), CE.MyOperandErr>
  {
    Parsers(CE.ParseOperand, DV.TryFromRef, CE.ParseEvaluator)
  }

  /** The custom example's default expression `1 1 +` builds, planning a
      stack of two. */
  lemma CustomBuilds()
    ensures Build(CustomParsers(), CE.Evaluators().arity, ["1", "1", "+"])
         == Ok(Expr([Operand(CE.Number1), Operand(CE.Number1), Evaluator(CE.Add)], 2))
  {
    var ar := CE.Evaluators().arity;
    var t: seq<Token<CE.MyOperand, DV.Dummy, CE.MyEvaluator>> :=
      [Operand(CE.Number1), Operand(CE.Number1), Evaluator(CE.Add)];
    ClassifyAllPointwise(CustomParsers(), ["1", "1", "+"], t);
    assert t[1..] == [Operand(CE.Number1), Evaluator(CE.Add)] && t[1..][1..] == [Evaluator(CE.Add)];
    assert Simulate(ar, t, 0) == Some(1);
    assert MaxDepth(ar, t) == 2;
  }

  /** The `+` token on two `Number1`s leaves `Number2`. */
  lemma CustomAddStep(s: Stack<CE.MyOperand>)
    ensures Replay(CE.Evaluators(), (v: DV.Dummy) => None, [Evaluator(CE.Add)], Push(Push(s, CE.Number1), CE.Number1))
         == Ok(Push(s, CE.Number2))
  {
    PopTwoAfterTwoPushes(s, CE.Number1, CE.Number1);
  }

  /** `1 1 +` evaluates to `Number2`. */
  lemma CustomEvaluates()
    ensures Evaluate(CE.Evaluators(), (v: DV.Dummy) => None,
                     Expr([Operand(CE.Number1), Operand(CE.Number1), Evaluator(CE.Add)], 2))
         == Ok(CE.Number2)
  {
    var t: seq<Token<CE.MyOperand, DV.Dummy, CE.MyEvaluator>> :=
      [Operand(CE.Number1), Operand(CE.Number1), Evaluator(CE.Add)];
    var s0: Stack<CE.MyOperand> := WithCapacity(2);
    CustomAddStep(s0);
    assert t[1..] == [Operand(CE.Number1), Evaluator(CE.Add)] && t[1..][1..] == [Evaluator(CE.Add)];
    PushThenPop(s0, CE.Number2);
  }
}

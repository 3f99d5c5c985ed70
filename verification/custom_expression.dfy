/** The custom operand and evaluator types of examples/custom_expression.rs:
    a two-value domain with a partial addition and subtraction. The
    example reads its operands through `pop_two_operands` as written, so
    `a` below is the top of the stack and `b` the value under it. */
module CustomExpression {
  import opened Wrappers
  import opened Stacks
  import opened PopTwo
  import C = Contract

  datatype MyOperand = Number1 | Number2

  /** `MyOperandErr`, the parse error of both custom types. */
  datatype MyOperandErr = InvalidToken(token: string)

  datatype MyEvaluator = Add | Sub

  datatype MyEvalErr =
    | CannotAddOperands(a: MyOperand, b: MyOperand)
    | CannotSubOperands(a: MyOperand, b: MyOperand)
    | NotEnoughOperands

  /** The token each operand is written as. */
  function Numeral(o: MyOperand): string
  {
    match o
    case Number1 => "1"
    case Number2 => "2"
  }

  /** `MyOperand::try_from_ref`: exactly the two numerals. */
  function ParseOperand(token: string): (r: Result<MyOperand, MyOperandErr>)
    ensures r.Ok? ==> Numeral(r.value) == token
    ensures r.Err? <==> token != "1" && token != "2"
    ensures r.Err? ==> r.error == InvalidToken(token)
  {
    match token
    case "1" => Ok(Number1)
    case "2" => Ok(Number2)
    case _ => Err(InvalidToken(token))
  }

  /** The symbol each evaluator is written as. */
  function Symbol(e: MyEvaluator): string
  {
    match e
    case Add => "+"
    case Sub => "-"
  }

  /** `MyEvaluator::try_from_ref`: exactly `+` and `-`. */
  function ParseEvaluator(token: string): (r: Result<MyEvaluator, MyOperandErr>)
    ensures r.Ok? ==> Symbol(r.value) == token
    ensures r.Err? <==> token != "+" && token != "-"
    ensures r.Err? ==> r.error == InvalidToken(token)
  {
    match token
    case "+" => Ok(Add)
    case "-" => Ok(Sub)
    case _ => Err(InvalidToken(token))
  }

  /** Both parsers read back what their printers write. */
  lemma ParseRoundTrips(o: MyOperand, e: MyEvaluator)
    ensures ParseOperand(Numeral(o)) == Ok(o)
    ensures ParseEvaluator(Symbol(e)) == Ok(e)
  {
  }

  function Needed(e: MyEvaluator): nat
  {
    2
  }

  function Generated(e: MyEvaluator): nat
  {
    1
  }

  /** `evaluate`: a short stack is reported as `NotEnoughOperands` rather
      than a panic; Add accepts only two `Number1`s and pushes `Number2`;
      Sub accepts only `Number2` on top of `Number1` and pushes `Number1`;
      any other pair is refused with both operands, top first. */
  function Evaluate(e: MyEvaluator, s: Stack<MyOperand>): (r: Result<Stack<MyOperand>, MyEvalErr>)
    ensures r == Err(NotEnoughOperands) <==> Len(s) < 2
    ensures r.Ok? <==>
      Len(s) >= 2
      && (e == Add ==> s.items[Len(s) - 1] == Number1 && s.items[Len(s) - 2] == Number1)
      && (e == Sub ==> s.items[Len(s) - 1] == Number2 && s.items[Len(s) - 2] == Number1)
    ensures r.Ok? ==>
      r.value == Push(Stack(s.items[..Len(s) - 2]), if e == Add then Number2 else Number1)
    ensures r.Err? && Len(s) >= 2 ==>
      var pair := (s.items[Len(s) - 1], s.items[Len(s) - 2]);
      r.error == (if e == Add then CannotAddOperands(pair.0, pair.1) else CannotSubOperands(pair.0, pair.1))
  {
    match PopTwoOperands(s)
    case (None, _) => Err(NotEnoughOperands)
    case (Some((a, b)), rest) =>
      match e
      case Add =>
        if a == Number1 && b == Number1 then Ok(Push(rest, Number2))
        else Err(CannotAddOperands(a, b))
      case Sub =>
        if a == Number2 && b == Number1 then Ok(Push(rest, Number1))
        else Err(CannotSubOperands(a, b))
  }

  /** The custom evaluator as a family for the expression layer: it never
      panics, and it keeps its arity. */
  function Evaluators(): (f: C.Family<MyOperand, MyEvaluator, MyEvalErr>)
    ensures C.Honest(f)
    ensures forall e, s :: f.defined(e, s) && f.evaluate.requires(e, s)
  {
    var f := C.Family(
      C.Arity(Needed, Generated),
      (e, s) => true,
      (e, s) => Evaluate(e, s));
    forall e, s | 2 <= Len(s) && Evaluate(e, s).Ok?
      ensures C.Effect(s, Evaluate(e, s).value, 2, 1)
    {
      var pushed := [if e == Add then Number2 else Number1];
      C.ReplaceTop(s, 2, pushed);
      assert Evaluate(e, s).value == Stack(s.items[..Len(s) - 2] + pushed);
    }
    f
  }

  /** Reading the operands top first: `1 2 -` is accepted and `2 1 -` is
      refused with `(Number1, Number2)`. */
  lemma SubtractionOrder(s: Stack<MyOperand>)
    ensures Evaluate(Sub, Push(Push(s, Number1), Number2)) == Ok(Push(s, Number1))
    ensures Evaluate(Sub, Push(Push(s, Number2), Number1)) == Err(CannotSubOperands(Number1, Number2))
  {
    PopTwoAfterTwoPushes(s, Number1, Number2);
    PopTwoAfterTwoPushes(s, Number2, Number1);
  }
}

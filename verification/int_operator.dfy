/** The older checked signed-integer operators of src/operate/integer.rs.
    They are written for `pop_two_operands`' own order: `a` is the top of
    the stack and `b` the value below it. */
module IntOperator {
  import opened Wrappers
  import opened Stacks
  import opened PopTwo
  import TC = TwosComplement
  import C = Contract
  import IE = IntEvaluator

  datatype Op = Add | Sub | Mul | Div | Rem | Neg | Pow | Swap | Zero | One

  /** `IntOperateErr`. */
  datatype OperateErr =
    | ConvertToU32(value: int)
    | AddOverflow(a: int, b: int)
    | SubUnderflow(a: int, b: int)
    | MulOverflow(a: int, b: int)
    | InvalidDiv(a: int, b: int)
    | InvalidRem(a: int, b: int)

  /** `IntErr`. */
  datatype ParseErr = InvalidExpr(token: string)

  /** `u32::MAX`. */
  const U32Max: int := 0xFFFF_FFFF

  /** `operands_needed`. */
  function Needed(op: Op): nat
  {
    match op
    case Add | Sub | Mul | Div | Pow | Rem | Swap => 2
    case Neg => 1
    case Zero | One => 0
  }

  /** `operands_generated`. */
  function Generated(op: Op): nat
  {
    match op
    case Swap => 2
    case _ => 1
  }

  /** `operate` does not panic: the stack holds the values `unwrap()`
      expects, they are values of the type, and none of `-MIN`,
      `MIN % -1` or an overflowing `pow` is computed. */
  predicate Defined(bits: TC.Bits, op: Op, s: Stack<int>)
  {
    && Len(s) >= Needed(op)
    && TC.AllInRange(bits, s.items)
    && (op == Neg ==> s.items[Len(s) - 1] != TC.Min(bits))
    && (op == Rem ==>
          var (a, b, _) := Operands(TopFirst, s);
          !(b == TC.Min(bits) && a == -1))
    && (op == Pow ==>
          var (a, b, _) := Operands(TopFirst, s);
          0 <= a <= U32Max ==> TC.InRange(bits, TC.Power(b, a)))
  }

  /** What a two-operand operator pushes for top `a` and next `b`, or its
      error. */
  function Binary(bits: TC.Bits, op: Op, a: int, b: int): (r: Result<seq<int>, OperateErr>)
    requires Needed(op) == 2
    requires TC.InRange(bits, a) && TC.InRange(bits, b)
    requires op == Rem ==> !(b == TC.Min(bits) && a == -1)
    requires op == Pow && 0 <= a <= U32Max ==> TC.InRange(bits, TC.Power(b, a))
    ensures r.Ok? ==> |r.value| == Generated(op) && TC.AllInRange(bits, r.value)
  {
    match op
    case Add =>
      if TC.InRange(bits, a + b) then Ok([a + b]) else Err(AddOverflow(a, b))
    case Sub =>
      if TC.InRange(bits, b - a) then Ok([b - a]) else Err(SubUnderflow(b, a))
    case Mul =>
      if TC.InRange(bits, a * b) then Ok([a * b]) else Err(MulOverflow(a, b))
    case Div =>
      if a == 0 || (b == TC.Min(bits) && a == -1) then Err(InvalidDiv(b, a))
      else
        TC.QuotInRange(bits, b, a);
        Ok([TC.Quot(b, a)])
    case Rem =>
      if a == 0 then Err(InvalidRem(b, a))
      else
        TC.RemInRange(bits, b, a);
        Ok([TC.Rem(b, a)])
    case Pow =>
      if a < 0 || a > U32Max then Err(ConvertToU32(a))
      else Ok([TC.Power(b, a)])
    case Swap => Ok([a, b])
  }

  function Pushed(bits: TC.Bits, op: Op, s: Stack<int>): (r: Result<seq<int>, OperateErr>)
    requires Defined(bits, op, s)
    ensures r.Ok? ==> |r.value| == Generated(op) && TC.AllInRange(bits, r.value)
  {
    if op == Zero || op == One then
      TC.ZeroOneInRange(bits);
      Ok([if op == Zero then 0 else 1])
    else if op == Neg then
      Ok([-s.items[Len(s) - 1]])
    else
      var (a, b, _) := Operands(TopFirst, s);
      Binary(bits, op, a, b)
  }

  /** `operate`: pops `Needed(op)` values and pushes `Generated(op)`
      values of the type, or fails with an `OperateErr`. */
  function Operate(bits: TC.Bits, op: Op, s: Stack<int>): (r: Result<Stack<int>, OperateErr>)
    requires Defined(bits, op, s)
    ensures r.Ok? ==> C.Effect(s, r.value, Needed(op), Generated(op))
    ensures r.Ok? ==> TC.AllInRange(bits, r.value.items)
  {
    match Pushed(bits, op, s)
    case Err(e) => Err(e)
    case Ok(pushed) =>
      C.ReplaceTop(s, Needed(op), pushed);
      TC.AllInRangeReplace(bits, s.items, Needed(op), pushed);
      Ok(Stack(s.items[..Len(s) - Needed(op)] + pushed))
  }

  /** The operator type as a family for the expression layer. */
  function Operators(bits: TC.Bits): (f: C.Family<int, Op, OperateErr>)
    ensures C.Honest(f)
  {
    C.Family(
      C.Arity(Needed, Generated),
      (op, s) => Defined(bits, op, s),
      (op, s) requires Defined(bits, op, s) => Operate(bits, op, s))
  }

  /** A two-operand operator on `x` pushed before `y` sees `y` as its top
      `a` and `x` as `b`, and replaces both with what `Binary` makes of
      them, or fails with its error. */
  lemma BinaryOnTwoPushes(bits: TC.Bits, op: Op, s: Stack<int>, x: int, y: int)
    requires Needed(op) == 2
    requires TC.AllInRange(bits, s.items) && TC.InRange(bits, x) && TC.InRange(bits, y)
    requires op == Rem ==> !(x == TC.Min(bits) && y == -1)
    requires op == Pow && 0 <= y <= U32Max ==> TC.InRange(bits, TC.Power(x, y))
    ensures Defined(bits, op, Push(Push(s, x), y))
    ensures Binary(bits, op, y, x).Ok? ==>
      Operate(bits, op, Push(Push(s, x), y)) == Ok(Stack(s.items + Binary(bits, op, y, x).value))
    ensures Binary(bits, op, y, x).Err? ==>
      Operate(bits, op, Push(Push(s, x), y)) == Err(Binary(bits, op, y, x).error)
  {
    var t := Push(Push(s, x), y);
    IE.TwoPushesInRange(bits, s, x, y);
    OperandsAfterTwoPushes(TopFirst, s, x, y);
    assert t.items[..Len(t) - 2] == s.items;
  }

  /** Add on `x` pushed before `y`: the sum, or an error carrying the
      operands top first, `(y, x)`. */
  lemma AddOnTwoPushes(bits: TC.Bits, s: Stack<int>, x: int, y: int)
    requires TC.AllInRange(bits, s.items) && TC.InRange(bits, x) && TC.InRange(bits, y)
    ensures Operate(bits, Add, Push(Push(s, x), y))
         == if TC.InRange(bits, y + x) then Ok(Push(s, y + x)) else Err(AddOverflow(y, x))
  {
    BinaryOnTwoPushes(bits, Add, s, x, y);
  }

  /** Sub on `x` pushed before `y` computes `x - y`, its error naming
      `(x, y)`. */
  lemma SubOnTwoPushes(bits: TC.Bits, s: Stack<int>, x: int, y: int)
    requires TC.AllInRange(bits, s.items) && TC.InRange(bits, x) && TC.InRange(bits, y)
    ensures Operate(bits, Sub, Push(Push(s, x), y))
         == if TC.InRange(bits, x - y) then Ok(Push(s, x - y)) else Err(SubUnderflow(x, y))
  {
    BinaryOnTwoPushes(bits, Sub, s, x, y);
  }

  /** Mul on `x` pushed before `y`: the product, or an error carrying the
      operands top first, `(y, x)`. */
  lemma MulOnTwoPushes(bits: TC.Bits, s: Stack<int>, x: int, y: int)
    requires TC.AllInRange(bits, s.items) && TC.InRange(bits, x) && TC.InRange(bits, y)
    ensures Operate(bits, Mul, Push(Push(s, x), y))
         == if TC.InRange(bits, y * x) then Ok(Push(s, y * x)) else Err(MulOverflow(y, x))
  {
    BinaryOnTwoPushes(bits, Mul, s, x, y);
  }


  /** Div and Rem on `x` pushed before `y` divide `x` by `y`; a zero
      divisor (and, for Div, `MIN / -1`) is an error naming `(x, y)`. */
  lemma DivisionOnTwoPushes(bits: TC.Bits, s: Stack<int>, x: int, y: int)
    requires TC.AllInRange(bits, s.items) && TC.InRange(bits, x) && TC.InRange(bits, y)
    ensures Operate(bits, Div, Push(Push(s, x), y))
         == if y == 0 || (x == TC.Min(bits) && y == -1) then Err(InvalidDiv(x, y))
            else Ok(Push(s, TC.Quot(x, y)))
    ensures !(x == TC.Min(bits) && y == -1) ==>
      Operate(bits, Rem, Push(Push(s, x), y))
         == if y == 0 then Err(InvalidRem(x, y)) else Ok(Push(s, TC.Rem(x, y)))
  {
    OperandsAfterTwoPushes(TopFirst, s, x, y);
  }

  /** Pow takes the top value as the exponent: a negative one (or one
      beyond `u32::MAX`) is `ConvertToU32` of it; otherwise the power of the
      value below, which must fit since the source does not check it. */
  lemma PowOnTwoPushes(bits: TC.Bits, s: Stack<int>, x: int, y: int)
    requires TC.AllInRange(bits, s.items) && TC.InRange(bits, x) && TC.InRange(bits, y)
    requires 0 <= y <= U32Max ==> TC.InRange(bits, TC.Power(x, y))
    ensures Operate(bits, Pow, Push(Push(s, x), y))
         == if y < 0 || y > U32Max then Err(ConvertToU32(y)) else Ok(Push(s, TC.Power(x, y)))
  {
    OperandsAfterTwoPushes(TopFirst, s, x, y);
  }

  /** Swap pops top `a` and next `b` and pushes `a` then `b`: the top two
      values trade places. */
  lemma SwapExchanges(bits: TC.Bits, s: Stack<int>, x: int, y: int)
    requires TC.AllInRange(bits, s.items) && TC.InRange(bits, x) && TC.InRange(bits, y)
    ensures Operate(bits, Swap, Push(Push(s, x), y)) == Ok(Push(Push(s, y), x))
  {
    OperandsAfterTwoPushes(TopFirst, s, x, y);
    assert s.items + [y, x] == Push(Push(s, y), x).items;
  }

  /** The evaluate-family variant with the same symbol. */
  function Counterpart(op: Op): IE.Op
  {
    match op
    case Add => IE.Add
    case Sub => IE.Sub
    case Mul => IE.Mul
    case Div => IE.Div
    case Rem => IE.Rem
    case Neg => IE.Neg
    case Pow => IE.Pow
    case Swap => IE.Swap
    case Zero => IE.Zero
    case One => IE.One
  }

  /** `try_from`: the same ten symbols as the evaluate family, read as the
      variant with the same arity; anything else is `InvalidExpr`. */
  function TryFrom(token: string): (r: Result<Op, ParseErr>)
    ensures r.Ok? <==> IE.TryFromRef(token).Ok?
    ensures r.Ok? ==> IE.TryFromRef(token).value == Counterpart(r.value)
    ensures r.Ok? ==>
      Needed(r.value) == IE.Needed(Counterpart(r.value))
      && Generated(r.value) == IE.Generated(Counterpart(r.value))
    ensures r.Err? ==> r.error == InvalidExpr(token)
  {
    match token
    case "+" => Ok(Add)
    case "-" => Ok(Sub)
    case "*" => Ok(Mul)
    case "/" => Ok(Div)
    case "%" => Ok(Rem)
    case "neg" => Ok(Neg)
    case "pow" => Ok(Pow)
    case "swap" => Ok(Swap)
    case "zero" => Ok(Zero)
    case "one" => Ok(One)
    case _ => Err(InvalidExpr(token))
  }

  /** A two-operand operator given top `a` and next `b` pushes what the
      evaluator with the same symbol pushes given earlier `b` and later
      `a`, whenever it succeeds. */
  lemma BinaryAgrees(bits: TC.Bits, op: Op, a: int, b: int)
    requires Needed(op) == 2
    requires TC.InRange(bits, a) && TC.InRange(bits, b)
    requires op == Rem ==> !(b == TC.Min(bits) && a == -1)
    requires op == Pow && 0 <= a <= U32Max ==> TC.InRange(bits, TC.Power(b, a))
    requires Binary(bits, op, a, b).Ok?
    ensures IE.Binary(bits, Counterpart(op), b, a) == Ok(Binary(bits, op, a, b).value)
  {
  }

  /** What an operator pushes, the evaluator with the same symbol pushes
      on the same stack. */
  lemma PushedAgrees(bits: TC.Bits, op: Op, s: Stack<int>)
    requires Defined(bits, op, s)
    requires Pushed(bits, op, s).Ok?
    ensures IE.Defined(bits, EarlierFirst, Counterpart(op), s)
    ensures IE.Pushed(EarlierFirst, bits, Counterpart(op), s) == Ok(Pushed(bits, op, s).value)
  {
    if Needed(op) == 2 {
      var (a, b, _) := Operands(TopFirst, s);
      OperandsSwapped(s);
      BinaryAgrees(bits, op, a, b);
    }
  }

  /** The two pop orders name the same two values, the other way round. */
  lemma OperandsSwapped<T>(s: Stack<T>)
    requires Len(s) >= 2
    ensures Operands(EarlierFirst, s).0 == Operands(TopFirst, s).1
    ensures Operands(EarlierFirst, s).1 == Operands(TopFirst, s).0
    ensures Operands(EarlierFirst, s).2 == Operands(TopFirst, s).2
  {
  }

  /** Whenever an older operator succeeds, the newer evaluator with the
      same symbol computes the same stack: the two families differ only in
      how their errors name the operands and in what they reject. */
  lemma AgreesWithEvaluateFamily(bits: TC.Bits, op: Op, s: Stack<int>)
    requires Defined(bits, op, s)
    requires Operate(bits, op, s).Ok?
    ensures IE.Defined(bits, EarlierFirst, Counterpart(op), s)
    ensures IE.Evaluate(bits, Counterpart(op), s) == Ok(Operate(bits, op, s).value)
  {
    PushedAgrees(bits, op, s);
  }
}

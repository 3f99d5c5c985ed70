/** The older floating-point operators of src/operate/float.rs. Their
    `operate` is the same match, case for case, as the float evaluators'
    `evaluate`, so each operator is modelled by the evaluator with the same
    symbol; what is stated here is that the two tables agree. */
module FloatOperator {
  import opened Wrappers
  import opened Stacks
  import opened PopTwo
  import opened FloatArith
  import C = Contract
  import FE = FloatEvaluator

  datatype Op = Add | Sub | Mul | Div | Rem | Neg | Sqrt | Pow | Log2 | Exp | Swap | Zero | One | Round

  /** `FloatOperateErr` has no variants. */
  type OperateErr = ()

  /** `FloatErr`. */
  datatype ParseErr = InvalidExpr(token: string)

  /** `operands_needed`; Pow pops two values, although its doc comment
      says one. */
  function Needed(op: Op): nat
  {
    match op
    case Add | Sub | Mul | Div | Pow | Rem | Swap => 2
    case Neg | Sqrt | Log2 | Round | Exp => 1
    case Zero | One => 0
  }

  /** `operands_generated`. */
  function Generated(op: Op): nat
  {
    match op
    case Swap => 2
    case _ => 1
  }

  /** The evaluator written with the same symbol; it pops and pushes as
      many values as the operator. */
  function Counterpart(op: Op): (e: FE.Op)
    ensures FE.Needed(e) == Needed(op) && FE.Generated(e) == Generated(op)
    ensures FE.Display(e) == Symbol(op)
  {
    match op
    case Add => FE.Add
    case Sub => FE.Sub
    case Mul => FE.Mul
    case Div => FE.Div
    case Rem => FE.Rem
    case Neg => FE.Neg
    case Sqrt => FE.Sqrt
    case Pow => FE.Pow
    case Log2 => FE.Log2
    case Exp => FE.Exp
    case Swap => FE.Swap
    case Zero => FE.Zero
    case One => FE.One
    case Round => FE.Round
  }

  /** The symbol `try_from` reads as each operator. */
  function Symbol(op: Op): string
  {
    match op
    case Add => "+"
    case Sub => "-"
    case Mul => "*"
    case Div => "/"
    case Rem => "%"
    case Neg => "neg"
    case Sqrt => "sqrt"
    case Pow => "pow"
    case Log2 => "log2"
    case Exp => "exp"
    case Swap => "swap"
    case Zero => "zero"
    case One => "one"
    case Round => "round"
  }

  /** `operate` with the operands of a binary operator taken in `order`:
      pops `Needed(op)` values and pushes `Generated(op)`. */
  function OperateWith<T>(order: Order, arith: Arith<T>, op: Op, s: Stack<T>): (r: Stack<T>)
    requires Len(s) >= Needed(op)
    ensures C.Effect(s, r, Needed(op), Generated(op))
  {
    FE.EvaluateWith(order, arith, Counterpart(op), s)
  }

  /** `operate` with the operand order the source's tests demand. */
  function Operate<T>(arith: Arith<T>, op: Op, s: Stack<T>): Stack<T>
    requires Len(s) >= Needed(op)
  {
    OperateWith(EarlierFirst, arith, op, s)
  }

  /** The operator type as a family for the expression layer: it never
      fails. */
  function Operators<T(!new)>(arith: Arith<T>): (f: C.Family<T, Op, OperateErr>)
    ensures C.Honest(f)
    ensures forall op, s :: f.defined(op, s)
    ensures forall op, s :: Len(s) >= Needed(op) ==> f.evaluate.requires(op, s) && f.evaluate(op, s).Ok?
  {
    C.Family(
      C.Arity(Needed, Generated),
      (op, s) => true,
      (op, s) requires Len(s) >= Needed(op) => Ok(Operate(arith, op, s)))
  }

  /** Every two-operand operator on `a b` (`a` pushed first) pops both and
      pushes what the evaluator with the same symbol makes of `a` and `b`,
      in that order. */
  lemma BinaryOnTwoPushes<T>(arith: Arith<T>, op: Op, s: Stack<T>, a: T, b: T)
    requires Needed(op) == 2
    ensures Operate(arith, op, Push(Push(s, a), b)) == Stack(s.items + FE.Binary(arith, Counterpart(op), a, b))
  {
    FE.BinaryOnTwoPushes(arith, Counterpart(op), s, a, b);
  }

  /** Swap exchanges the top two values. */
  lemma SwapExchanges<T>(arith: Arith<T>, s: Stack<T>, a: T, b: T)
    ensures Operate(arith, Swap, Push(Push(s, a), b)) == Push(Push(s, b), a)
  {
    FE.SwapExchanges(arith, s, a, b);
  }

  /** A unary operator replaces the top value by its image under the
      operation the evaluator with the same symbol applies. */
  lemma UnaryOnPush<T>(arith: Arith<T>, op: Op, s: Stack<T>, a: T)
    requires Needed(op) == 1
    ensures Operate(arith, op, Push(s, a)) == Push(s, FE.Unary(arith, Counterpart(op), a))
  {
    FE.UnaryOnPush(arith, Counterpart(op), s, a);
  }

  /** Zero and One push their constant without popping. */
  lemma Constants<T>(arith: Arith<T>, op: Op, s: Stack<T>)
    requires Needed(op) == 0
    ensures Operate(arith, op, s) == Push(s, if op == Zero then arith.zero else arith.one)
  {
    FE.Constants(arith, Counterpart(op), s);
  }

  /** As written, with `pop_two_operands` handing back the top value
      first: `4 3 -` computes `3 - 4`, and Swap pushes its operands back
      where they were. */
  lemma AsWrittenExamples<T>(arith: Arith<T>, s: Stack<T>, x: T, y: T)
    ensures OperateWith(TopFirst, arith, Sub, Push(Push(s, x), y)) == Push(s, arith.sub(y, x))
    ensures OperateWith(TopFirst, arith, Swap, Push(Push(s, x), y)) == Push(Push(s, x), y)
  {
    FE.AsWrittenExamples(arith, s, x, y);
  }

  /** `try_from`: reads exactly the fourteen symbols, the same ones the
      float evaluators read, each as the operator with the evaluator's
      arity; any other token is `InvalidExpr` of itself. */
  function TryFrom(token: string): (r: Result<Op, ParseErr>)
    ensures r.Ok? ==> Symbol(r.value) == token
    ensures r.Ok? <==> FE.TryFromRef(token).Ok?
    ensures r.Ok? ==> FE.TryFromRef(token).value == Counterpart(r.value)
    ensures r.Err? ==> r.error == InvalidExpr(token)
  {
    match token
    case "+" => Ok(Add)
    case "-" => Ok(Sub)
    case "*" => Ok(Mul)
    case "/" => Ok(Div)
    case "%" => Ok(Rem)
    case "neg" => Ok(Neg)
    case "sqrt" => Ok(Sqrt)
    case "pow" => Ok(Pow)
    case "log2" => Ok(Log2)
    case "exp" => Ok(Exp)
    case "swap" => Ok(Swap)
    case "zero" => Ok(Zero)
    case "one" => Ok(One)
    case "round" => Ok(Round)
    case _ => Err(InvalidExpr(token))
  }

  /** Every operator is read back from its symbol. */
  lemma SymbolThenParse(op: Op)
    ensures TryFrom(Symbol(op)) == Ok(op)
  {
  }
}

/** The floating-point evaluators of src/evaluate/float.rs. */
module FloatEvaluator {
  import opened Wrappers
  import opened Stacks
  import opened PopTwo
  import opened FloatArith
  import C = Contract

  datatype Op = Add | Sub | Mul | Div | Rem | Neg | Sqrt | Pow | Log2 | Exp | Swap | Zero | One | Round

  /** `FloatEvaluateErr` has no variants, so no value of it is ever
      produced; the unit type stands in for it. */
  type EvaluateErr = ()

  /** `FloatErr`: the token is none of the fourteen symbols. */
  datatype ParseErr = InvalidExpr(token: string)

  /** `operands_needed`. */
  function Needed(op: Op): nat
  {
    match op
    case Add | Sub | Mul | Div | Pow | Rem | Swap => 2
    case Neg | Sqrt | Log2 | Round | Exp => 1
    case Zero | One => 0
  }

  /** `operands_generated`. */
  function Generated(op: Op): nat
  {
    match op
    case Swap => 2
    case _ => 1
  }

  /** What a one-operand evaluator makes of its operand `a`. */
  function Unary<T>(arith: Arith<T>, op: Op, a: T): T
    requires Needed(op) == 1
  {
    match op
    case Neg => arith.neg(a)
    case Sqrt => arith.sqrt(a)
    case Log2 => arith.log2(a)
    case Exp => arith.exp(a)
    case Round => arith.round(a)
  }

  /** What a two-operand evaluator pushes for operands `a` and `b`. */
  function Binary<T>(arith: Arith<T>, op: Op, a: T, b: T): (r: seq<T>)
    requires Needed(op) == 2
    ensures |r| == Generated(op)
  {
    match op
    case Add => [arith.add(a, b)]
    case Sub => [arith.sub(a, b)]
    case Mul => [arith.mul(a, b)]
    case Div => [arith.div(a, b)]
    case Rem => [arith.rem(a, b)]
    case Pow => [arith.powf(a, b)]
    case Swap => [b, a]
  }

  /** The values `evaluate` pushes in place of the `Needed(op)` it pops;
      `a` and `b` are the two operands of a binary evaluator in `order`. */
  function Pushed<T>(order: Order, arith: Arith<T>, op: Op, s: Stack<T>): (r: seq<T>)
    requires Len(s) >= Needed(op)
    ensures |r| == Generated(op)
  {
    if Needed(op) == 0 then [if op == Zero then arith.zero else arith.one]
    else if Needed(op) == 1 then [Unary(arith, op, s.items[Len(s) - 1])]
    else
      var (a, b, _) := Operands(order, s);
      Binary(arith, op, a, b)
  }

  /** `evaluate` with the operands of a binary evaluator taken in `order`.
      It cannot fail: only a short stack makes the source panic. */
  function EvaluateWith<T>(order: Order, arith: Arith<T>, op: Op, s: Stack<T>): (r: Stack<T>)
    requires Len(s) >= Needed(op)
    ensures C.Effect(s, r, Needed(op), Generated(op))
    ensures Len(r) == Len(s) - Needed(op) + Generated(op)
  {
    var pushed := Pushed(order, arith, op, s);
    C.ReplaceTop(s, Needed(op), pushed);
    Stack(s.items[..Len(s) - Needed(op)] + pushed)
  }

  /** `evaluate` with the operand order the source's tests demand. */
  function Evaluate<T>(arith: Arith<T>, op: Op, s: Stack<T>): Stack<T>
    requires Len(s) >= Needed(op)
  {
    EvaluateWith(EarlierFirst, arith, op, s)
  }

  /** The evaluator type as a family for the expression layer: nothing
      beyond the stack length can make it panic, and it never fails. */
  function Evaluators<T(!new)>(arith: Arith<T>): (f: C.Family<T, Op, EvaluateErr>)
    ensures C.Honest(f)
    ensures forall op, s :: f.defined(op, s)
    ensures forall op, s :: Len(s) >= Needed(op) ==> f.evaluate.requires(op, s) && f.evaluate(op, s).Ok?
  {
    C.Family(
      C.Arity(Needed, Generated),
      (op, s) => true,
      (op, s) requires Len(s) >= Needed(op) => Ok(Evaluate(arith, op, s)))
  }

  /** Every two-operand evaluator on `a b` (`a` pushed first) pops both
      and pushes what `Binary` makes of `a` and `b`, in that order: the
      operation applied to them for the arithmetic evaluators, `b a` for
      Swap. */
  lemma BinaryOnTwoPushes<T>(arith: Arith<T>, op: Op, s: Stack<T>, a: T, b: T)
    requires Needed(op) == 2
    ensures Evaluate(arith, op, Push(Push(s, a), b)) == Stack(s.items + Binary(arith, op, a, b))
  {
    var t := Push(Push(s, a), b);
    OperandsAfterTwoPushes(EarlierFirst, s, a, b);
    assert t.items[..Len(t) - 2] == s.items;
  }

  /** Swap exchanges the top two values and leaves the rest alone. */
  lemma SwapExchanges<T>(arith: Arith<T>, s: Stack<T>, a: T, b: T)
    ensures Evaluate(arith, Swap, Push(Push(s, a), b)) == Push(Push(s, b), a)
  {
    BinaryOnTwoPushes(arith, Swap, s, a, b);
    assert s.items + [b, a] == Push(Push(s, b), a).items;
  }

  /** Every one-operand evaluator replaces the top value by its image
      under the operation `Unary` names and leaves the rest alone. */
  lemma UnaryOnPush<T>(arith: Arith<T>, op: Op, s: Stack<T>, a: T)
    requires Needed(op) == 1
    ensures Evaluate(arith, op, Push(s, a)) == Push(s, Unary(arith, op, a))
  {
    var t := Push(s, a);
    assert t.items[..Len(t) - 1] == s.items && t.items[Len(t) - 1] == a;
  }

  /** Zero and One push their constant on top of the unchanged stack. */
  lemma Constants<T>(arith: Arith<T>, op: Op, s: Stack<T>)
    requires Needed(op) == 0
    ensures Evaluate(arith, op, s) == Push(s, if op == Zero then arith.zero else arith.one)
  {
    assert s.items[..Len(s)] == s.items;
  }

  /** The symbol each evaluator is written as (`Display`). */
  function Display(op: Op): string
  {
    match op
    case Add => "+"
    case Sub => "-"
    case Mul => "*"
    case Div => "/"
    case Rem => "%"
    case Neg => "neg"
    case Sqrt => "sqrt"
    case Pow => "pow"
    case Log2 => "log2"
    case Exp => "exp"
    case Swap => "swap"
    case Zero => "zero"
    case One => "one"
    case Round => "round"
  }

  /** `try_from_ref`: reads exactly the fourteen symbols `Display` writes;
      any other token is `InvalidExpr` of itself. */
  function TryFromRef(token: string): (r: Result<Op, ParseErr>)
    ensures r.Ok? ==> Display(r.value) == token
    ensures r.Err? <==> forall op: Op :: Display(op) != token
    ensures r.Err? ==> r.error == InvalidExpr(token)
  {
    match token
    case "+" => Ok(Add)
    case "-" => Ok(Sub)
    case "*" => Ok(Mul)
    case "/" => Ok(Div)
    case "%" => Ok(Rem)
    case "neg" => Ok(Neg)
    case "sqrt" => Ok(Sqrt)
    case "pow" => Ok(Pow)
    case "log2" => Ok(Log2)
    case "exp" => Ok(Exp)
    case "swap" => Ok(Swap)
    case "zero" => Ok(Zero)
    case "one" => Ok(One)
    case "round" => Ok(Round)
    case _ => Err(InvalidExpr(token))
  }

  /** Displaying an evaluator and reading the symbol back gives it again. */
  lemma DisplayThenParse(op: Op)
    ensures TryFromRef(Display(op)) == Ok(op)
  {
  }

  /** As written, a two-operand evaluator on `x y` (`x` pushed first)
      pushes what `Binary` makes of `y` and `x`: the operands reversed. */
  lemma TopFirstOnTwoPushes<T>(arith: Arith<T>, op: Op, s: Stack<T>, x: T, y: T)
    requires Needed(op) == 2
    ensures EvaluateWith(TopFirst, arith, op, Push(Push(s, x), y)) == Stack(s.items + Binary(arith, op, y, x))
  {
    var t := Push(Push(s, x), y);
    OperandsAfterTwoPushes(TopFirst, s, x, y);
    assert t.items[..Len(t) - 2] == s.items;
  }

  /** As written, `pop_two_operands` hands back the top value first, so
      every two-operand evaluator sees its operands in the reverse of the
      order they were pushed. */
  lemma TopFirstReversesOperands<T>(arith: Arith<T>, op: Op, s: Stack<T>, x: T, y: T)
    requires Needed(op) == 2
    ensures EvaluateWith(TopFirst, arith, op, Push(Push(s, x), y))
         == EvaluateWith(EarlierFirst, arith, op, Push(Push(s, y), x))
  {
    var t1 := Push(Push(s, x), y);
    var t2 := Push(Push(s, y), x);
    assert Pushed(TopFirst, arith, op, t1) == Binary(arith, op, y, x) by {
      OperandsAfterTwoPushes(TopFirst, s, x, y);
    }
    assert Pushed(EarlierFirst, arith, op, t2) == Binary(arith, op, y, x) by {
      OperandsAfterTwoPushes(EarlierFirst, s, y, x);
    }
    assert t1.items[..Len(t1) - 2] == s.items == t2.items[..Len(t2) - 2];
  }

  /** What the as-written order does to the crate's examples: `4 3 -`
      computes `3 - 4`, `3 4 + $0 -` subtracts the sum from the variable,
      and Swap pushes its operands back where they were. */
  lemma AsWrittenExamples<T>(arith: Arith<T>, s: Stack<T>, x: T, y: T)
    ensures EvaluateWith(TopFirst, arith, Sub, Push(Push(s, x), y)) == Push(s, arith.sub(y, x))
    ensures EvaluateWith(TopFirst, arith, Swap, Push(Push(s, x), y)) == Push(Push(s, x), y)
  {
    assert EvaluateWith(TopFirst, arith, Sub, Push(Push(s, x), y)) == Push(s, arith.sub(y, x)) by {
      TopFirstOnTwoPushes(arith, Sub, s, x, y);
    }
    TopFirstOnTwoPushes(arith, Swap, s, x, y);
    assert s.items + [x, y] == Push(Push(s, x), y).items;
  }

  /** `x y swap /` divides `y` by `x` under either order. In push order,
      Swap exchanges the operands (`SwapExchanges`) and Div takes them as
      they stand (`BinaryOnTwoPushes`). As written, which is this lemma, Swap
      leaves `x y` where they were and Div then reverses the operands
      itself. That is why the crate's Swap example holds as written. */
  lemma SwapThenDivide<T>(arith: Arith<T>, s: Stack<T>, x: T, y: T)
    ensures EvaluateWith(TopFirst, arith, Swap, Push(Push(s, x), y)) == Push(Push(s, x), y)
    ensures EvaluateWith(TopFirst, arith, Div, EvaluateWith(TopFirst, arith, Swap, Push(Push(s, x), y)))
         == Push(s, arith.div(y, x))
  {
    AsWrittenExamples(arith, s, x, y);
    TopFirstOnTwoPushes(arith, Div, s, x, y);
  }
}

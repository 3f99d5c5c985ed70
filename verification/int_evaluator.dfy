/** The checked signed-integer evaluators of src/evaluate/integer.rs, over a
    two's-complement type of `bits` bits. */
module IntEvaluator {
  import opened Wrappers
  import opened Stacks
  import opened PopTwo
  import TC = TwosComplement
  import C = Contract

  datatype Op = Add | Sub | Mul | Div | Rem | Neg | Pow | Swap | Zero | One

  /** `IntEvaluateErr`; the second field of `PowOverflow` is the exponent
      already converted to `usize`. */
  datatype EvaluateErr =
    | ConvertToU32(value: int)
    | AddOverflow(a: int, b: int)
    | SubUnderflow(a: int, b: int)
    | MulOverflow(a: int, b: int)
    | PowOverflow(base: int, exp: nat)
    | InvalidDiv(a: int, b: int)
    | InvalidRem(a: int, b: int)

  /** `IntErr`: the token is none of the ten symbols. */
  datatype ParseErr = InvalidExpr(token: string)

  /** `usize::MAX` on a 64-bit target. */
  const UsizeMax: int := 0xFFFF_FFFF_FFFF_FFFF

  /** `operands_needed`. */
  function Needed(op: Op): nat
  {
    match op
    case Add | Sub | Mul | Div | Pow | Rem | Swap => 2
    case Neg => 1
    case Zero | One => 0
  }

  /** `operands_generated`. */
  function Generated(op: Op): nat
  {
    match op
    case Swap => 2
    case _ => 1
  }

  /** `evaluate` does not panic: the stack holds the values `unwrap()`
      expects, they are values of the type, and neither `-MIN` nor
      `MIN % -1` is computed. */
  predicate Defined(bits: TC.Bits, order: Order, op: Op, s: Stack<int>)
  {
    && Len(s) >= Needed(op)
    && TC.AllInRange(bits, s.items)
    && (op == Neg ==> s.items[Len(s) - 1] != TC.Min(bits))
    && (op == Rem ==>
          var (a, b, _) := Operands(order, s);
          !(a == TC.Min(bits) && b == -1))
  }

  /** What a two-operand evaluator pushes for operands `a` and `b`, or
      its error. */
  function Binary(bits: TC.Bits, op: Op, a: int, b: int): (r: Result<seq<int>, EvaluateErr>)
    requires Needed(op) == 2
    requires TC.InRange(bits, a) && TC.InRange(bits, b)
    requires op == Rem ==> !(a == TC.Min(bits) && b == -1)
    ensures r.Ok? ==> |r.value| == Generated(op) && TC.AllInRange(bits, r.value)
  {
    match op
    case Add =>
      if TC.InRange(bits, a + b) then Ok([a + b]) else Err(AddOverflow(a, b))
    case Sub =>
      if TC.InRange(bits, a - b) then Ok([a - b]) else Err(SubUnderflow(a, b))
    case Mul =>
      if TC.InRange(bits, a * b) then Ok([a * b]) else Err(MulOverflow(a, b))
    case Div =>
      if b == 0 || (a == TC.Min(bits) && b == -1) then Err(InvalidDiv(a, b))
      else
        TC.QuotInRange(bits, a, b);
        Ok([TC.Quot(a, b)])
    case Rem =>
      if b == 0 then Err(InvalidRem(a, b))
      else
        TC.RemInRange(bits, a, b);
        Ok([TC.Rem(a, b)])
    case Pow =>
      if b < 0 || b > UsizeMax then Err(ConvertToU32(b))
      else if TC.InRange(bits, TC.Power(a, b)) then Ok([TC.Power(a, b)])
      else Err(PowOverflow(a, b))
    case Swap => Ok([b, a])
  }

  /** The values `evaluate` pushes in place of the `Needed(op)` it pops,
      or its error. */
  function Pushed(order: Order, bits: TC.Bits, op: Op, s: Stack<int>): (r: Result<seq<int>, EvaluateErr>)
    requires Defined(bits, order, op, s)
    ensures r.Ok? ==> |r.value| == Generated(op) && TC.AllInRange(bits, r.value)
  {
    if op == Zero || op == One then
      TC.ZeroOneInRange(bits);
      Ok([if op == Zero then 0 else 1])
    else if op == Neg then
      Ok([-s.items[Len(s) - 1]])
    else
      var (a, b, _) := Operands(order, s);
      Binary(bits, op, a, b)
  }

  /** `evaluate` with the operands of a binary evaluator taken in `order`
      (`a` first, `b` second). */
  function EvaluateWith(order: Order, bits: TC.Bits, op: Op, s: Stack<int>): (r: Result<Stack<int>, EvaluateErr>)
    requires Defined(bits, order, op, s)
    ensures r.Ok? ==> C.Effect(s, r.value, Needed(op), Generated(op))
    ensures r.Ok? ==> TC.AllInRange(bits, r.value.items)
    ensures r.Ok? ==> Len(r.value) == Len(s) - Needed(op) + Generated(op)
  {
    match Pushed(order, bits, op, s)
    case Err(e) => Err(e)
    case Ok(pushed) =>
      C.ReplaceTop(s, Needed(op), pushed);
      TC.AllInRangeReplace(bits, s.items, Needed(op), pushed);
      Ok(Stack(s.items[..Len(s) - Needed(op)] + pushed))
  }

  /** `evaluate` with the operand order the source's tests demand: `a` was
      pushed before `b`. */
  function Evaluate(bits: TC.Bits, op: Op, s: Stack<int>): Result<Stack<int>, EvaluateErr>
    requires Defined(bits, EarlierFirst, op, s)
  {
    EvaluateWith(EarlierFirst, bits, op, s)
  }

  /** The evaluator type as a family for the expression layer. Every
      integer evaluator pops exactly `operands_needed` values and pushes
      exactly `operands_generated`. */
  function Evaluators(bits: TC.Bits): (f: C.Family<int, Op, EvaluateErr>)
    ensures C.Honest(f)
  {
    C.Family(
      C.Arity(Needed, Generated),
      (op, s) => Defined(bits, EarlierFirst, op, s),
      (op, s) requires Defined(bits, EarlierFirst, op, s) => Evaluate(bits, op, s))
  }

  /** Pushing two values of the type onto a stack of values of the type
      gives a stack of values of the type. */
  lemma TwoPushesInRange(bits: TC.Bits, s: Stack<int>, a: int, b: int)
    requires TC.AllInRange(bits, s.items) && TC.InRange(bits, a) && TC.InRange(bits, b)
    ensures TC.AllInRange(bits, Push(Push(s, a), b).items)
  {
    assert Push(Push(s, a), b).items == s.items + [a, b];
  }

  /** Every two-operand evaluator on `a b` (`a` pushed first) pops both and
      pushes what `Binary` makes of `a` and `b`, in that order, or stops
      with `Binary`'s error. */
  lemma BinaryOnTwoPushes(bits: TC.Bits, op: Op, s: Stack<int>, a: int, b: int)
    requires Needed(op) == 2
    requires TC.AllInRange(bits, s.items) && TC.InRange(bits, a) && TC.InRange(bits, b)
    requires op == Rem ==> !(a == TC.Min(bits) && b == -1)
    ensures Defined(bits, EarlierFirst, op, Push(Push(s, a), b))
    ensures Binary(bits, op, a, b).Ok? ==>
      Evaluate(bits, op, Push(Push(s, a), b)) == Ok(Stack(s.items + Binary(bits, op, a, b).value))
    ensures Binary(bits, op, a, b).Err? ==>
      Evaluate(bits, op, Push(Push(s, a), b)) == Err(Binary(bits, op, a, b).error)
  {
    var t := Push(Push(s, a), b);
    TwoPushesInRange(bits, s, a, b);
    OperandsAfterTwoPushes(EarlierFirst, s, a, b);
    assert t.items[..Len(t) - 2] == s.items;
  }

  /** Add on `a` pushed before `b`: the sum when it fits the type,
      otherwise an overflow error naming both operands. */
  lemma CheckedAdd(bits: TC.Bits, s: Stack<int>, a: int, b: int)
    requires TC.AllInRange(bits, s.items) && TC.InRange(bits, a) && TC.InRange(bits, b)
    ensures Evaluate(bits, Add, Push(Push(s, a), b))
         == if TC.InRange(bits, a + b) then Ok(Push(s, a + b)) else Err(AddOverflow(a, b))
  {
    BinaryOnTwoPushes(bits, Add, s, a, b);
  }

  /** Sub on `a` pushed before `b` computes `a - b`, or an underflow error
      naming both operands. */
  lemma CheckedSub(bits: TC.Bits, s: Stack<int>, a: int, b: int)
    requires TC.AllInRange(bits, s.items) && TC.InRange(bits, a) && TC.InRange(bits, b)
    ensures Evaluate(bits, Sub, Push(Push(s, a), b))
         == if TC.InRange(bits, a - b) then Ok(Push(s, a - b)) else Err(SubUnderflow(a, b))
  {
    BinaryOnTwoPushes(bits, Sub, s, a, b);
  }

  /** Mul on `a` pushed before `b`: the product when it fits the type,
      otherwise an overflow error naming both operands. */
  lemma CheckedMul(bits: TC.Bits, s: Stack<int>, a: int, b: int)
    requires TC.AllInRange(bits, s.items) && TC.InRange(bits, a) && TC.InRange(bits, b)
    ensures Evaluate(bits, Mul, Push(Push(s, a), b))
         == if TC.InRange(bits, a * b) then Ok(Push(s, a * b)) else Err(MulOverflow(a, b))
  {
    BinaryOnTwoPushes(bits, Mul, s, a, b);
  }

  /** Div on `a` pushed before `b`: a zero divisor and `MIN / -1` are
      errors naming both operands; otherwise the quotient truncated toward
      zero. */
  lemma CheckedDiv(bits: TC.Bits, s: Stack<int>, a: int, b: int)
    requires TC.AllInRange(bits, s.items) && TC.InRange(bits, a) && TC.InRange(bits, b)
    ensures Evaluate(bits, Div, Push(Push(s, a), b))
         == if b == 0 || (a == TC.Min(bits) && b == -1) then Err(InvalidDiv(a, b))
            else Ok(Push(s, TC.Quot(a, b)))
  {
    BinaryOnTwoPushes(bits, Div, s, a, b);
  }

  /** Rem on `a` pushed before `b`: a zero divisor is an error naming both
      operands; otherwise the remainder, which takes the dividend's sign.
      `MIN % -1` is not guarded by the source; it panics, and is excluded
      here. */
  lemma CheckedRem(bits: TC.Bits, s: Stack<int>, a: int, b: int)
    requires TC.AllInRange(bits, s.items) && TC.InRange(bits, a) && TC.InRange(bits, b)
    requires !(a == TC.Min(bits) && b == -1)
    ensures Evaluate(bits, Rem, Push(Push(s, a), b))
         == if b == 0 then Err(InvalidRem(a, b)) else Ok(Push(s, TC.Rem(a, b)))
  {
    BinaryOnTwoPushes(bits, Rem, s, a, b);
  }

  /** Pow raises `a` to `b`: a negative exponent, or one beyond `usize`, is
      `ConvertToU32` of it; a power outside the type is `PowOverflow`. */
  lemma CheckedPower(bits: TC.Bits, s: Stack<int>, a: int, b: int)
    requires TC.AllInRange(bits, s.items) && TC.InRange(bits, a) && TC.InRange(bits, b)
    ensures Evaluate(bits, Pow, Push(Push(s, a), b))
         == if b < 0 || b > UsizeMax then Err(ConvertToU32(b))
            else if TC.InRange(bits, TC.Power(a, b)) then Ok(Push(s, TC.Power(a, b)))
            else Err(PowOverflow(a, b))
  {
    BinaryOnTwoPushes(bits, Pow, s, a, b);
  }

  /** Swap exchanges the top two values and leaves the rest alone. */
  lemma SwapExchanges(bits: TC.Bits, s: Stack<int>, a: int, b: int)
    requires TC.AllInRange(bits, s.items) && TC.InRange(bits, a) && TC.InRange(bits, b)
    ensures Evaluate(bits, Swap, Push(Push(s, a), b)) == Ok(Push(Push(s, b), a))
  {
    BinaryOnTwoPushes(bits, Swap, s, a, b);
    assert s.items + [b, a] == Push(Push(s, b), a).items;
  }

  /** Neg replaces the top value by its negation. */
  lemma NegOnPush(bits: TC.Bits, s: Stack<int>, a: int)
    requires TC.AllInRange(bits, s.items) && TC.InRange(bits, a) && a != TC.Min(bits)
    ensures Evaluate(bits, Neg, Push(s, a)) == Ok(Push(s, -a))
  {
    var t := Push(s, a);
    assert t.items == s.items + [a];
    assert t.items[..Len(t) - 1] == s.items && t.items[Len(t) - 1] == a;
  }

  /** Zero and One push their constant without popping. */
  lemma Constants(bits: TC.Bits, op: Op, s: Stack<int>)
    requires TC.AllInRange(bits, s.items) && Needed(op) == 0
    ensures Evaluate(bits, op, s) == Ok(Push(s, if op == Zero then 0 else 1))
  {
    assert s.items[..Len(s)] == s.items;
  }

  /** The symbol each evaluator is written as (`Display`). */
  function Display(op: Op): string
  {
    match op
    case Add => "+"
    case Sub => "-"
    case Mul => "*"
    case Div => "/"
    case Rem => "%"
    case Neg => "neg"
    case Pow => "pow"
    case Swap => "swap"
    case Zero => "zero"
    case One => "one"
  }

  /** `try_from_ref`: reads exactly the ten symbols `Display` writes; any
      other token is `InvalidExpr` of itself. */
  function TryFromRef(token: string): (r: Result<Op, ParseErr>)
    ensures r.Ok? ==> Display(r.value) == token
    ensures r.Err? <==> forall op: Op :: Display(op) != token
    ensures r.Err? ==> r.error == InvalidExpr(token)
  {
    match token
    case "+" => Ok(Add)
    case "-" => Ok(Sub)
    case "*" => Ok(Mul)
    case "/" => Ok(Div)
    case "%" => Ok(Rem)
    case "neg" => Ok(Neg)
    case "pow" => Ok(Pow)
    case "swap" => Ok(Swap)
    case "zero" => Ok(Zero)
    case "one" => Ok(One)
    case _ => Err(InvalidExpr(token))
  }

  /** Displaying an evaluator and reading the symbol back gives it again. */
  lemma DisplayThenParse(op: Op)
    ensures TryFromRef(Display(op)) == Ok(op)
  {
  }

  /** As written, a two-operand evaluator on `x y` (`x` pushed first)
      works on `y` and `x`: it pushes what `Binary` makes of them, or stops
      with `Binary`'s error. */
  lemma TopFirstOnTwoPushes(bits: TC.Bits, op: Op, s: Stack<int>, x: int, y: int)
    requires Needed(op) == 2
    requires TC.AllInRange(bits, s.items) && TC.InRange(bits, x) && TC.InRange(bits, y)
    requires op == Rem ==> !(y == TC.Min(bits) && x == -1)
    ensures Defined(bits, TopFirst, op, Push(Push(s, x), y))
    ensures Binary(bits, op, y, x).Ok? ==>
      EvaluateWith(TopFirst, bits, op, Push(Push(s, x), y)) == Ok(Stack(s.items + Binary(bits, op, y, x).value))
    ensures Binary(bits, op, y, x).Err? ==>
      EvaluateWith(TopFirst, bits, op, Push(Push(s, x), y)) == Err(Binary(bits, op, y, x).error)
  {
    var t := Push(Push(s, x), y);
    TwoPushesInRange(bits, s, x, y);
    OperandsAfterTwoPushes(TopFirst, s, x, y);
    assert t.items[..Len(t) - 2] == s.items;
  }

  /** `pow` as written on `x y` (`y` on top): `y` is the base and `x` the
      exponent, so a negative `x`, not `y`, is the conversion error. */
  lemma TopFirstPower(bits: TC.Bits, s: Stack<int>, x: int, y: int)
    requires TC.AllInRange(bits, s.items) && TC.InRange(bits, x) && TC.InRange(bits, y)
    ensures EvaluateWith(TopFirst, bits, Pow, Push(Push(s, x), y))
         == if x < 0 || x > UsizeMax then Err(ConvertToU32(x))
            else if TC.InRange(bits, TC.Power(y, x)) then Ok(Push(s, TC.Power(y, x)))
            else Err(PowOverflow(y, x))
  {
    TopFirstOnTwoPushes(bits, Pow, s, x, y);
  }

  /** As written, `pop_two_operands` hands back the top value first, so
      every two-operand evaluator sees its operands in the reverse of the
      order they were pushed: reading `x` then `y` as written is reading `y`
      then `x` in push order. */
  lemma TopFirstReversesOperands(bits: TC.Bits, op: Op, s: Stack<int>, x: int, y: int)
    requires Needed(op) == 2
    requires Defined(bits, TopFirst, op, Push(Push(s, x), y))
    ensures Defined(bits, EarlierFirst, op, Push(Push(s, y), x))
    ensures EvaluateWith(TopFirst, bits, op, Push(Push(s, x), y))
         == EvaluateWith(EarlierFirst, bits, op, Push(Push(s, y), x))
  {
    OperandsAfterTwoPushes(TopFirst, s, x, y);
    OperandsAfterTwoPushes(EarlierFirst, s, y, x);
    var t := Push(Push(s, x), y);
    var u := Push(Push(s, y), x);
    assert t.items[..Len(t) - 2] == u.items[..Len(u) - 2];
  }

  /** The as-written reading on the crate's own examples, on the width
      of `i8` (`TC.NamedWidths`): `4 3 -` leaves `-1` rather than `1`, and
      `125 20 +` reports `AddOverflow(20, 125)` rather than
      `AddOverflow(125, 20)`. */
  lemma AsWrittenExamples(bits: TC.Bits, s: Stack<int>)
    requires TC.Min(bits) == -0x80 && TC.Max(bits) == 0x7F && TC.AllInRange(bits, s.items)
    ensures EvaluateWith(TopFirst, bits, Sub, Push(Push(s, 4), 3)) == Ok(Push(s, -1))
    ensures EvaluateWith(TopFirst, bits, Add, Push(Push(s, 125), 20)) == Err(AddOverflow(20, 125))
    ensures EvaluateWith(TopFirst, bits, Pow, Push(Push(s, 3), 10)) == Err(PowOverflow(10, 3))
    ensures EvaluateWith(TopFirst, bits, Pow, Push(Push(s, 3), -10)) == Err(PowOverflow(-10, 3))
  {
    assert EvaluateWith(TopFirst, bits, Sub, Push(Push(s, 4), 3)) == Ok(Push(s, -1)) by {
      TopFirstOnTwoPushes(bits, Sub, s, 4, 3);
    }
    assert EvaluateWith(TopFirst, bits, Add, Push(Push(s, 125), 20)) == Err(AddOverflow(20, 125)) by {
      TopFirstOnTwoPushes(bits, Add, s, 125, 20);
    }
    AsWrittenPowers(bits, s);
  }

  /** The crate's two `i8` `pow` tests as written: the base is the exponent
      pushed last, so `3 10 pow` overflows as `10^3` and `3 -10 pow`
      overflows as `(-10)^3` instead of failing to convert `-10`. */
  lemma AsWrittenPowers(bits: TC.Bits, s: Stack<int>)
    requires TC.Min(bits) == -0x80 && TC.Max(bits) == 0x7F && TC.AllInRange(bits, s.items)
    ensures EvaluateWith(TopFirst, bits, Pow, Push(Push(s, 3), 10)) == Err(PowOverflow(10, 3))
    ensures EvaluateWith(TopFirst, bits, Pow, Push(Push(s, 3), -10)) == Err(PowOverflow(-10, 3))
  {
    assert EvaluateWith(TopFirst, bits, Pow, Push(Push(s, 3), 10)) == Err(PowOverflow(10, 3)) by {
      assert TC.Power(10, 3) == 1000;
      TopFirstPower(bits, s, 3, 10);
    }
    assert TC.Power(-10, 1) == -10 && TC.Power(-10, 2) == 100 && TC.Power(-10, 3) == -1000;
    TopFirstPower(bits, s, 3, -10);
  }


  /** The push-order reading on the same examples gives what the crate's
      tests expect. */
  lemma CorrectedExamples(bits: TC.Bits, s: Stack<int>)
    requires TC.Min(bits) == -0x80 && TC.Max(bits) == 0x7F && TC.AllInRange(bits, s.items)
    ensures Evaluate(bits, Sub, Push(Push(s, 4), 3)) == Ok(Push(s, 1))
    ensures Evaluate(bits, Add, Push(Push(s, 125), 20)) == Err(AddOverflow(125, 20))
    ensures Evaluate(bits, Pow, Push(Push(s, 3), 10)) == Err(PowOverflow(3, 10))
    ensures Evaluate(bits, Pow, Push(Push(s, 3), -10)) == Err(ConvertToU32(-10))
  {
    assert Evaluate(bits, Sub, Push(Push(s, 4), 3)) == Ok(Push(s, 1)) by {
      BinaryOnTwoPushes(bits, Sub, s, 4, 3);
    }
    assert Evaluate(bits, Add, Push(Push(s, 125), 20)) == Err(AddOverflow(125, 20)) by {
      BinaryOnTwoPushes(bits, Add, s, 125, 20);
    }
    CorrectedPowers(bits, s);
  }

  /** The crate's two `i8` `pow` tests in push order: `3 10 pow` overflows
      as `3^10`, and `3 -10 pow` fails to convert the exponent `-10`. */
  lemma CorrectedPowers(bits: TC.Bits, s: Stack<int>)
    requires TC.Min(bits) == -0x80 && TC.Max(bits) == 0x7F && TC.AllInRange(bits, s.items)
    ensures Evaluate(bits, Pow, Push(Push(s, 3), 10)) == Err(PowOverflow(3, 10))
    ensures Evaluate(bits, Pow, Push(Push(s, 3), -10)) == Err(ConvertToU32(-10))
  {
    assert Evaluate(bits, Pow, Push(Push(s, 3), 10)) == Err(PowOverflow(3, 10)) by {
      assert TC.Power(3, 10) == 59049;
      CheckedPower(bits, s, 3, 10);
    }
    CheckedPower(bits, s, 3, -10);
  }


  /** The crate's `i8` underflow example in push order: `-120 30 -`. */
  lemma SubUnderflowExample(bits: TC.Bits)
    requires TC.Min(bits) == -0x80 && TC.Max(bits) == 0x7F
    ensures Evaluate(bits, Sub, Push(Push(New(), -120), 30)) == Err(SubUnderflow(-120, 30))
  {
    CheckedSub(bits, New(), -120, 30);
  }

  /** The crate's `i8` overflow example in push order: `30 20 *`. */
  lemma MulOverflowExample(bits: TC.Bits)
    requires TC.Min(bits) == -0x80 && TC.Max(bits) == 0x7F
    ensures Evaluate(bits, Mul, Push(Push(New(), 30), 20)) == Err(MulOverflow(30, 20))
  {
    CheckedMul(bits, New(), 30, 20);
  }

  /** The crate's division-by-zero example in push order: `9 0 /`. */
  lemma DivByZeroExample(bits: TC.Bits)
    requires TC.Min(bits) == -0x80 && TC.Max(bits) == 0x7F
    ensures Evaluate(bits, Div, Push(Push(New(), 9), 0)) == Err(InvalidDiv(9, 0))
  {
    CheckedDiv(bits, New(), 9, 0);
  }

}

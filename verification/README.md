# ripin: a Dafny model of the RPN evaluation core

ripin evaluates Reverse Polish Notation expressions such as `3 4 + 2 *`.
Tokens are read as operands, variables (`$0`) or evaluators (`+`, `neg`,
`swap`, ...). Evaluators run against a LIFO stack, and every evaluator type
announces how many values it pops (`operands_needed`) and pushes
(`operands_generated`). This project models that core in Dafny and proves
properties of the model:

- `stack.dfy` models the stack. The top is the last element of a sequence, and `with_capacity` is the empty stack.
- `pop_two.dfy` models `pop_two_operands`. Both pops run before the match, so a one-element stack loses its element. The module also defines the two ways an evaluator can name the pair it pops:
  - `TopFirst` is what the function returns.
  - `EarlierFirst` is what the evaluators' tests expect.
- `contract.dfy` models the `Evaluate` trait. An evaluator type is a record of its arity and its evaluation function. `Honest` is the arity promise: with enough values on the stack, `evaluate` pops exactly `needed` values and pushes exactly `generated`, and leaves the rest alone.
- `twos_complement.dfy` gives fixed-width signed integers. A `bits` parameter gives the range `[-2^(bits-1), 2^(bits-1)-1]`, and `Quot`/`Rem` are Rust's truncating `/` and `%`.
- `int_evaluator.dfy` models the checked integer evaluators. `int_operator.dfy` models the older integer operators, which are written for the top-first order.
- `float_evaluator.dfy` and `float_operator.dfy` model the float families. Their numeric operations are uninterpreted functions (`float_arith.dfy`), so only the stack shape and which operands reach which operation are checked.
- `index_var.dfy`, `var_idx.dfy`, `usize_from_str.dfy` and `dummy_variable.dfy` model the variable types. `get_variable.dfy` models variable lookup in the five container types.
- `custom_expression.dfy` models the custom operand and evaluator types of the example program.
- `expression.dfy` is the expression layer. It covers:
  - token classification, trying the evaluator conversion first, then the variable conversion, then the operand conversion;
  - the arity simulation and the stack-depth planner;
  - rendering;
  - the evaluation loop.

  The crate's own `Expression` type is an unfinished stub that ignores its tokens. This layer is therefore written generically over the `Evaluate` contract, following what the crate's tests expect of it.
- `scenarios.dfy` runs the crate's example expressions through that layer.

Rust panics are preconditions of the model, not outcomes. These panics are an `unwrap()` on a short stack, `-MIN`, `MIN % -1`, and the unchecked `pow` of the older integer operators. Checked failures are the crate's own error variants, carried in a `Result`.

The two-value pop returns `(top, next)`. The evaluate families and the float operators consume it as `(a, b)` and compute `a - b`. Their own tests expect `4 3 -` to give 1, which needs `a` to be the value pushed earlier. The model follows the code: `EvaluateWith(TopFirst, ...)` is the code as written, and the discrepancy is recorded under Findings. Every other lemma uses `Evaluate`, which is the push-order reading the tests expect. The older integer operators and the custom example really are written for `(top, next)`, and are modelled with it.

## Model

| member | source | states |
|---|---|---|
| Stacks.New | src/stack.rs:6-8 | `new` gives a stack of length 0 that is empty |
| Stacks.WithCapacity | src/stack.rs:11-13 | whatever the capacity, the result is the same empty stack as `new` |
| Stacks.IsEmpty | src/stack.rs:21-23 | `is_empty` holds exactly when the length is 0 |
| Stacks.Push | src/stack.rs:26-28 | the length grows by one, the value is on top, and everything below is unchanged |
| Stacks.Pop | src/stack.rs:31-33 | on an empty stack: `None`, stack unchanged; otherwise: the top value, and the length shrinks by one |
| Stacks.PushThenPop | src/stack.rs:26-33 | popping right after a push returns the pushed value and the previous stack |
| Stacks.PopThenPush | src/stack.rs:26-33 | pushing back what a pop took from a non-empty stack restores that stack |
| Stacks.PopEmpty | src/stack.rs:31-33 | popping an empty stack gives `None` and leaves it empty |
| PopTwo.PopTwoOperands | src/lib.rs:9-14 | with at least two values: `Some((top, next))` with exactly those two removed; on one value: `None`, but that value is already popped; on none: `None`, stack unchanged |
| PopTwo.PopTwoAfterTwoPushes | src/lib.rs:9-14 | after pushing `x` then `y`, the pop gives `(y, x)` and restores the earlier stack |
| PopTwo.Operands | src/lib.rs:9-14 | the operands are exactly the pair `pop_two_operands` returns, in its order for `TopFirst` and swapped for `EarlierFirst`, and the rest is the stack it leaves |
| PopTwo.OperandsPushBack | src/lib.rs:9-14 | pushing the two operands back onto the rest, in push order, restores the stack they were read from |
| PopTwo.OperandsAfterTwoPushes | src/lib.rs:10-11 | after pushing `x` then `y`: `EarlierFirst` reads `(x, y)` and `TopFirst` reads `(y, x)` |
| Contract.ReplaceTop | src/evaluate/mod.rs:29-39 | replacing the top `k` values by `pushed` is the stack effect of an evaluator that needs `k` values and generates as many values as `pushed` holds |
| TwosComplement.Quot | src/evaluate/integer.rs:92-96 | the quotient is no larger in magnitude than the dividend (at most half of it for a divisor of magnitude 2 or more); the remainder it leaves is smaller in magnitude than the divisor and has the dividend's sign, i.e. truncation toward zero |
| TwosComplement.Rem | src/evaluate/integer.rs:97-105 | `a == b * Quot(a, b) + r`, `Abs(r) < Abs(b)`, and `r` is 0 or has the sign of `a` |
| TwosComplement.QuotInRange | src/evaluate/integer.rs:92-96 | `checked_div` fails only for a zero divisor and `MIN / -1`; every other quotient of in-range values is in range |
| TwosComplement.RemInRange | src/evaluate/integer.rs:97-105 | the remainder of in-range values by a non-zero divisor is in range |
| TwosComplement.NamedWidths | src/evaluate/integer.rs:222-226 | 8 bits give the `i8` bounds -128..127 and 32 bits give the `i32` bounds |
| IntEvaluator.Binary | src/evaluate/integer.rs:77-121 | a two-operand evaluator that succeeds produces `operands_generated` values, all in range |
| IntEvaluator.EvaluateWith | src/evaluate/integer.rs:73-126 | on success the stack keeps everything below the `operands_needed` top values, gains exactly `operands_generated` values, and holds only in-range values |
| IntEvaluator.Evaluators | src/evaluate/integer.rs:54-126 | every integer evaluator keeps the arity contract of the `Evaluate` trait |
| IntEvaluator.BinaryOnTwoPushes | src/evaluate/integer.rs:77-121 | on `a b` with `a` pushed first, a two-operand evaluator pops both and pushes the result for `(a, b)`, or returns that error |
| IntEvaluator.CheckedAdd | src/evaluate/integer.rs:77-81 | `a b +` pushes `a + b` when it fits the type, otherwise `AddOverflow(a, b)` |
| IntEvaluator.CheckedSub | src/evaluate/integer.rs:82-86 | `a b -` pushes `a - b` when it fits the type, otherwise `SubUnderflow(a, b)` |
| IntEvaluator.CheckedMul | src/evaluate/integer.rs:87-91 | `a b *` pushes `a * b` when it fits the type, otherwise `MulOverflow(a, b)` |
| IntEvaluator.CheckedDiv | src/evaluate/integer.rs:92-96 | `a b /` is `InvalidDiv(a, b)` exactly when `b = 0` or `a = MIN, b = -1`; otherwise it pushes the truncated quotient |
| IntEvaluator.CheckedRem | src/evaluate/integer.rs:97-105 | `a b %` is `InvalidRem(a, b)` exactly when `b = 0`; otherwise it pushes the truncated remainder |
| IntEvaluator.CheckedPower | src/evaluate/integer.rs:110-115 | `a b pow`: a negative exponent, or one beyond `usize`, is `ConvertToU32(b)`; a power outside the type is `PowOverflow(a, b)`; otherwise `a^b` is pushed |
| IntEvaluator.SwapExchanges | src/evaluate/integer.rs:116-121 | Swap exchanges the top two values and leaves the rest unchanged |
| IntEvaluator.NegOnPush | src/evaluate/integer.rs:106-109 | Neg replaces the top value by its negation |
| IntEvaluator.Constants | src/evaluate/integer.rs:122-123 | Zero and One push 0 and 1 without popping |
| IntEvaluator.TryFromRef | src/evaluate/integer.rs:135-153 | parsing succeeds exactly on the ten symbols `Display` writes and returns the variant with that symbol; any other token is `InvalidExpr(token)` |
| IntEvaluator.DisplayThenParse | src/evaluate/integer.rs:155-172 | each evaluator's displayed symbol parses back to that evaluator |
| IntEvaluator.TopFirstOnTwoPushes | src/evaluate/integer.rs:77-121 | as written, on `x y` a two-operand evaluator computes the result for `(y, x)`: the operands reversed |
| IntEvaluator.TopFirstReversesOperands | src/evaluate/integer.rs:77-121 | as written, evaluating `x y` is the push-order evaluation of `y x` |
| IntEvaluator.TopFirstPower | src/evaluate/integer.rs:110-115 | as written, on `x y` Pow raises `y` to the power `x`, so it is a negative `x` that fails to convert and an overflow reports `PowOverflow(y, x)` |
| IntEvaluator.AsWrittenExamples | src/evaluate/integer.rs:222-323 | as written, on `i8`: `4 3 -` leaves -1, `125 20 +` reports `AddOverflow(20, 125)`, `3 10 pow` reports `PowOverflow(10, 3)`, and `3 -10 pow` reports `PowOverflow(-10, 3)` instead of `ConvertToU32(-10)` |
| IntEvaluator.AsWrittenPowers | src/evaluate/integer.rs:310-323 | as written, on `i8`: `3 10 pow` is `PowOverflow(10, 3)` and `3 -10 pow` is `PowOverflow(-10, 3)` |
| IntEvaluator.CorrectedExamples | src/evaluate/integer.rs:222-323 | in push order: `4 3 -` leaves 1, `125 20 +` reports `AddOverflow(125, 20)`, `3 10 pow` reports `PowOverflow(3, 10)`, and `3 -10 pow` reports `ConvertToU32(-10)`, as the tests expect |
| IntEvaluator.CorrectedPowers | src/evaluate/integer.rs:310-323 | in push order, on `i8`: `3 10 pow` is `PowOverflow(3, 10)` and `3 -10 pow` is `ConvertToU32(-10)` |
| IntEvaluator.SubUnderflowExample | src/evaluate/integer.rs:238-243 | on `i8`, `-120 30 -` is `SubUnderflow(-120, 30)` |
| IntEvaluator.MulOverflowExample | src/evaluate/integer.rs:254-259 | on `i8`, `30 20 *` is `MulOverflow(30, 20)` |
| IntEvaluator.DivByZeroExample | src/evaluate/integer.rs:270-275 | `9 0 /` is `InvalidDiv(9, 0)` |
| IntOperator.Binary | src/operate/integer.rs:75-114 | a two-operand operator that succeeds produces `operands_generated` in-range values |
| IntOperator.Operate | src/operate/integer.rs:71-118 | on success the stack keeps everything below the `operands_needed` top values, gains `operands_generated` values, and stays in range |
| IntOperator.Operators | src/operate/integer.rs:54-118 | every integer operator keeps the arity contract |
| IntOperator.BinaryOnTwoPushes | src/operate/integer.rs:75-114 | on `x y` with `x` pushed first, a two-operand operator takes `y` as its top `a` and `x` as `b`, and replaces both with its result or returns its error |
| IntOperator.AddOnTwoPushes | src/operate/integer.rs:75-79 | on `x y`, Add pushes the sum if it fits, otherwise `AddOverflow(y, x)` (top first), so `125 20 +` is `AddOverflow(20, 125)` |
| IntOperator.SubOnTwoPushes | src/operate/integer.rs:80-84 | on `x y`, Sub pushes `x - y` if it fits, otherwise `SubUnderflow(x, y)` |
| IntOperator.MulOnTwoPushes | src/operate/integer.rs:85-89 | on `x y`, Mul pushes the product if it fits, otherwise `MulOverflow(y, x)` (top first) |
| IntOperator.DivisionOnTwoPushes | src/operate/integer.rs:90-99 | on `x y`, Div and Rem divide `x` by `y`; a zero divisor (and `MIN / -1` for Div) is an error naming `(x, y)` |
| IntOperator.PowOnTwoPushes | src/operate/integer.rs:104-108 | the top value is the exponent: a negative one, or one beyond `u32`, is `ConvertToU32` of it; otherwise the value below is raised to it |
| IntOperator.SwapExchanges | src/operate/integer.rs:109-114 | pushing the top-first pair back as `a` then `b` exchanges the top two values |
| IntOperator.TryFrom | src/operate/integer.rs:126-144 | the older parser reads exactly the evaluate family's ten symbols, as the variant with the same arity; anything else is `InvalidExpr(token)` |
| IntOperator.BinaryAgrees | src/operate/integer.rs:75-114 | a successful operator on top `a` and next `b` pushes what the same-symbol evaluator pushes on earlier `b` and later `a` |
| IntOperator.PushedAgrees | src/operate/integer.rs:71-118 | whenever an operator succeeds, the same-symbol evaluator is defined on the same stack and pushes the same values |
| IntOperator.OperandsSwapped | src/lib.rs:9-14 | the two reading orders name the same two values the other way round, over the same rest |
| IntOperator.AgreesWithEvaluateFamily | src/operate/integer.rs:71-118 | whenever an older operator succeeds, the evaluator with the same symbol yields the same stack |
| FloatEvaluator.Binary | src/evaluate/float.rs:78-123 | a two-operand evaluator produces `operands_generated` values |
| FloatEvaluator.EvaluateWith | src/evaluate/float.rs:75-132 | evaluation keeps everything below the `operands_needed` top values and adds `operands_generated` values |
| FloatEvaluator.Evaluators | src/evaluate/float.rs:52-133 | the float evaluators keep the arity contract and never return an error |
| FloatEvaluator.BinaryOnTwoPushes | src/evaluate/float.rs:78-123 | on `a b` with `a` pushed first, a two-operand evaluator pops both and pushes `op(a, b)` (for Swap: `b a`) |
| FloatEvaluator.SwapExchanges | src/evaluate/float.rs:118-123 | Swap exchanges the top two values and leaves the rest unchanged |
| FloatEvaluator.UnaryOnPush | src/evaluate/float.rs:98-129 | Neg, Sqrt, Log2, Exp and Round replace the top value by their operation applied to it |
| FloatEvaluator.Constants | src/evaluate/float.rs:124-125 | Zero and One push `T::zero()` and `T::one()` without popping |
| FloatEvaluator.TryFromRef | src/evaluate/float.rs:141-163 | parsing succeeds exactly on the fourteen symbols `Display` writes; any other token is `InvalidExpr(token)` |
| FloatEvaluator.DisplayThenParse | src/evaluate/float.rs:165-187 | each evaluator's displayed symbol parses back to that evaluator |
| FloatEvaluator.TopFirstOnTwoPushes | src/evaluate/float.rs:78-123 | as written, on `x y` a two-operand evaluator applies its operation to `(y, x)` |
| FloatEvaluator.TopFirstReversesOperands | src/evaluate/float.rs:78-123 | as written, evaluating `x y` is the push-order evaluation of `y x` |
| FloatEvaluator.AsWrittenExamples | src/evaluate/float.rs:235-241 | as written, `x y -` computes `y - x`, and Swap leaves `x y` where they were |
| FloatEvaluator.SwapThenDivide | src/evaluate/float.rs:324-330 | as written, Swap on `x y` leaves the stack as it was, and Div after it computes `y / x`, so `2 4 swap /` gives `4 / 2` |
| FloatOperator.Counterpart | src/operate/float.rs:61-77 | each operator has an evaluator with the same symbol and the same arity; Pow needs 2 values, whatever its doc comment says |
| FloatOperator.OperateWith | src/operate/float.rs:79-135 | `operate` keeps everything below the `operands_needed` top values and adds `operands_generated` values |
| FloatOperator.Operators | src/operate/float.rs:58-136 | the float operators keep the arity contract and never return an error |
| FloatOperator.BinaryOnTwoPushes | src/operate/float.rs:82-127 | on `a b` with `a` pushed first, a two-operand operator pushes what the same-symbol evaluator computes for `(a, b)` |
| FloatOperator.SwapExchanges | src/operate/float.rs:122-127 | Swap exchanges the top two values in push order |
| FloatOperator.UnaryOnPush | src/operate/float.rs:102-133 | a one-operand operator replaces the top value by the same-symbol evaluator's operation applied to it |
| FloatOperator.Constants | src/operate/float.rs:128-129 | Zero and One push their constant without popping |
| FloatOperator.AsWrittenExamples | src/operate/float.rs:206-210 | as written, `x y -` computes `y - x`, and Swap leaves `x y` where they were |
| FloatOperator.TryFrom | src/operate/float.rs:143-165 | reads exactly the fourteen symbols the float evaluators read, each as the operator with that evaluator's arity; anything else is `InvalidExpr(token)` |
| FloatOperator.SymbolThenParse | src/operate/float.rs:143-165 | each operator's symbol is read back as that operator |
| Expression.Classify | src/evaluate/integer.rs:180-189 | a token is an evaluator if that conversion accepts it, else a variable, else an operand; it is rejected exactly when all three conversions fail, with all three reasons |
| Expression.ClassifyAll | src/evaluate/integer.rs:180-189 | all tokens classify exactly when each one does, and each result denotes its token; otherwise the error is that of the first token that fails |
| Expression.ClassifyAllPointwise | src/evaluate/integer.rs:180-189 | when each token classifies as the given token, the whole sequence classifies to that token sequence |
| Expression.SimulateCounts | src/evaluate/mod.rs:29-35 | the arity simulation succeeds exactly when no evaluator finds fewer counted values than it needs, and then ends at the net push/pop count |
| Expression.ValidateAgreesWithCounting | src/evaluate/integer.rs:191-211 | an expression is accepted exactly when it never runs short and leaves one value; `TooManyOperands` exactly when it leaves more; `NotEnoughOperands` otherwise |
| Expression.SimulatePrefix | src/evaluate/mod.rs:29-35 | every prefix of a sequence that never runs short also never runs short, and ends at its own net count |
| Expression.MaxFromIsPeak | src/stack.rs:11-13 | the planned depth bounds every running count, and some prefix reaches it |
| Expression.MaxDepthIsPeak | src/stack.rs:11-13 | for an accepted expression, the capacity it plans is the largest number of values ever on the stack |
| Expression.Build | src/evaluate/integer.rs:180-219 | a built expression is accepted by the arity validator, carries its planned capacity, and has one token per word, each denoting its word; building succeeds exactly when classification and validation do; a classification failure is the first failing word's error, and a classified but unbalanced sequence is `OperandErr` with the validator's error |
| Expression.RenderRoundTrip | src/evaluate/integer.rs:349-355 | when each word of the text renders the way it parses, rendering the expression built from it gives back those words, and joining them gives back the text |
| Expression.Replay | src/evaluate/mod.rs:37-39 | when the arity simulation succeeds, the evaluation loop never hits a short stack, and on success leaves the simulated number of values; a missing variable is reported with its name; an evaluator error is the error some evaluator of the tokens returns on a stack holding what it needs, and a panic is some evaluator of the tokens refusing such a stack |
| Expression.Evaluate | src/evaluate/integer.rs:213-226 | evaluating an accepted expression never runs short of values; when every token succeeds, exactly one value remains and it is the result; when a token fails, that failure is the result, unchanged |
| Expression.ReplayAppend | src/evaluate/mod.rs:37-39 | evaluating two token runs one after the other is evaluating the first and, unless it failed, the second on the stack the first left; a failure in the first is the failure of the whole |
| Expression.ReplayProgress | src/evaluate/mod.rs:29-39 | when the arity simulation never runs short, every variable resolves and every evaluator succeeds whenever its operands are there, the evaluation loop succeeds |
| Expression.EvaluateSucceeds | src/evaluate/integer.rs:213-219 | an accepted expression whose variables all resolve and whose evaluators never fail evaluates to the single value its evaluation loop leaves |
| Expression.ReplayWithinCapacity | src/stack.rs:11-13 | while an accepted expression is evaluated, the stack never holds more values than the planned capacity |
| IndexVariable.TryFromRef | src/variable/index_var.rs:20-34 | a token not starting with `$` (including the empty token) is `InvalidVariableName(token)`; `$` followed by a `usize` reads that number; any other `$...` is `ConvertErr` with the parser's reason |
| IndexVariable.RoundTrip | src/variable/index_var.rs:23-40 | `$` followed by the decimal text of any `usize` n parses to `IndexVar(n)`, and converting that to `usize` gives n |
| IndexVariable.DollarWithoutNumber | src/variable/index_var.rs:26-28 | `$` alone, `$+`, or `$` followed by a non-digit is a `ConvertErr` |
| VarIndex.TryFromRef | src/variable/var_idx.rs:14-28 | succeeds exactly on `$` followed by a `usize` and reads that number; errors match those of `IndexVar` |
| VarIndex.AgreesWithIndexVar | src/variable/var_idx.rs:14-34 | `VarIdx` and `IndexVar` accept the same tokens, convert to the same `usize`, and reject the others with the same error |
| VarIndex.RoundTrip | src/variable/var_idx.rs:17-34 | `$` followed by the decimal text of any `usize` n parses to `VarIdx(n)` |
| DummyVariable.TryFromRef | src/variable/dummy_variable.rs:14-20 | the dummy variable type refuses every token |
| UsizeFromStr.ParseUsize | src/variable/index_var.rs:26 | the text after `$`: an empty string is `Empty`; otherwise it succeeds exactly on an optional `+` followed by digits whose value fits in `usize`, and reads that value |
| UsizeFromStr.ScanReadsValue | src/variable/index_var.rs:26 | the left-to-right digit scan succeeds exactly on digit strings whose value fits in `usize`, and reads that value |
| UsizeFromStr.DecimalRoundTrip | src/variable/index_var.rs:26 | every `usize` is read back from its decimal text |
| GetVariable.HashMapGet | src/variable/get_variable.rs:13-19 | lookup returns a value exactly when the key is present, and the value is one stored under that key |
| GetVariable.OneValuePerKey | src/variable/get_variable.rs:13-19 | with distinct keys, only one value can be stored under a key |
| GetVariable.BTreeMapGet | src/variable/get_variable.rs:21-27 | the ordered search over sorted keys finds exactly what a scan of all entries finds |
| GetVariable.VecGet | src/variable/get_variable.rs:29-35 | `iter().nth(i)` is `Some(v[i])` when `i < len` and `None` otherwise |
| GetVariable.ListGet | src/variable/get_variable.rs:45-51 | following `i` links in a linked list gives the element at position `i` of its contents, as for a `Vec` |
| GetVariable.VecDequeGet | src/variable/get_variable.rs:37-43 | reading slot `head + i` of the ring buffer, wrapping around, is the `Vec` lookup on the deque's contents from front to back |
| CustomExpression.ParseOperand | examples/custom_expression.rs:21-30 | "1" and "2" are `Number1` and `Number2`; any other token is `InvalidToken(token)` |
| CustomExpression.ParseEvaluator | examples/custom_expression.rs:43-52 | "+" and "-" are Add and Sub; any other token is `InvalidToken(token)` |
| CustomExpression.ParseRoundTrips | examples/custom_expression.rs:21-52 | each operand and evaluator parses back from its text |
| CustomExpression.Evaluate | examples/custom_expression.rs:90-111 | a short stack gives `NotEnoughOperands`; Add succeeds only on two `Number1` values, pushing `Number2`; Sub succeeds only with `Number2` on top of `Number1`, pushing `Number1`; any other pair is refused, naming the operands top first |
| CustomExpression.Evaluators | examples/custom_expression.rs:74-112 | the custom evaluators never panic and keep the arity contract (both need 2 values and generate 1) |
| CustomExpression.SubtractionOrder | examples/custom_expression.rs:101-108 | `1 2 -` gives `Number1`, and `2 1 -` is refused with `(Number1, Number2)` |
| Scenarios.ArityPlan | src/evaluate/integer.rs:191-219 | `3 4 +` ends with one value after holding two, `4 +` runs short, and `3 3 4 +` ends with two values |
| Scenarios.ClassifiesTokens | src/evaluate/integer.rs:213-219 | with a number parser that reads the numerals, "2", "3" and "4" are operands and "+" and "*" are evaluators |
| Scenarios.ArityExamples | src/evaluate/integer.rs:191-219 | `3 4 +` builds with capacity 2, `4 +` is `NotEnoughOperands`, and `3 3 4 +` is `TooManyOperands` |
| Scenarios.AddEvaluates | src/evaluate/integer.rs:77-81 | the `+` evaluator of the family on `a b` gives the sum or `AddOverflow(a, b)` |
| Scenarios.AddReplays | src/evaluate/integer.rs:213-227 | replaying `+` on `a b` gives the sum or stops with `AddOverflow(a, b)` |
| Scenarios.AdditionExample | src/evaluate/integer.rs:213-219 | `3 4 +` evaluates to 7 |
| Scenarios.OverflowExample | src/evaluate/integer.rs:221-227 | `125 20 +` on `i8` stops with `AddOverflow(125, 20)` |
| Scenarios.BadOperatorExample | src/evaluate/integer.rs:180-189 | `3 4 + &` fails to build, and the error carries `InvalidExpr("&")` |
| Scenarios.CapacityPlan | src/stack.rs:11-13 | `3 4 + 2 *` ends with one value and never holds more than two |
| Scenarios.CapacityExample | src/stack.rs:11-13 | `3 4 + 2 *` builds with a planned capacity of 2 |
| Scenarios.ToStringPlan | src/evaluate/integer.rs:350-355 | the tokens of `3 3 + neg neg 4 +` never run short and leave one value |
| Scenarios.ToStringClassifies | src/evaluate/integer.rs:350-355 | with a number parser reading "3" and "4", each word of `3 3 + neg neg 4 +` is read as its token |
| Scenarios.ToStringBuilds | src/evaluate/integer.rs:350-355 | `3 3 + neg neg 4 +` builds into its seven tokens |
| Scenarios.ToStringInverts | src/evaluate/integer.rs:350-355 | each word of `3 3 + neg neg 4 +` renders the way it parses, for a number parser and rendering that agree on "3" and "4" |
| Scenarios.ToStringJoin | src/evaluate/integer.rs:350-355 | the seven words joined by single spaces are the test's text |
| Scenarios.ToStringExample | src/evaluate/integer.rs:350-355 | `3 3 + neg neg 4 +` builds, and rendering it gives back the same text |
| Scenarios.FirstVariable | src/evaluate/float.rs:399-406 | `$0` is the variable with index 0 |
| Scenarios.BinaryStep | src/evaluate/float.rs:78-85 | an Add or Sub token on `a b` continues with `op(a, b)` in their place |
| Scenarios.SubtractVariable | src/evaluate/float.rs:399-406 | `$0 -` on a stack topped by `x`, with `$0` naming `v`, leaves `x - v` |
| Scenarios.FirstVarIdx | src/evaluate/float.rs:380-390 | `$0` is read as `VarIdx(0)` |
| Scenarios.VariableClassifies | src/evaluate/float.rs:399-406 | with a number parser reading "3" and "4", the words of `3 4 + $0 -` are two operands, Add, the variable `VarIdx(0)` and Sub |
| Scenarios.VariablePlan | src/evaluate/float.rs:399-406 | the tokens of `3 4 + $0 -` leave one value and never hold more than two |
| Scenarios.VariableBuilds | src/evaluate/float.rs:399-406 | the text `3 4 + $0 -` builds into its five tokens with a planned capacity of 2 |
| Scenarios.VariableTokensEvaluate | src/evaluate/float.rs:399-406 | the tokens of `3 4 + $0 -` with variables `[3, 500]` evaluate to `(3 + 4) - 3` |
| Scenarios.VariableExample | src/evaluate/float.rs:399-406 | the text `3 4 + $0 -`, read with `VarIdx`, builds, and with variables `[3, 500]` evaluates to `(3 + 4) - 3` |
| Scenarios.CustomBuilds | examples/custom_expression.rs:114-125 | the example's default `1 1 +` builds with capacity 2 |
| Scenarios.CustomAddStep | examples/custom_expression.rs:93-100 | the custom `+` on two `Number1` values leaves `Number2` |
| Scenarios.CustomEvaluates | examples/custom_expression.rs:90-111 | `1 1 +` evaluates to `Number2` |
| Scenarios.FloatExpressionsEvaluate | src/evaluate/float.rs:75-131 | every accepted float expression whose variables all resolve evaluates to the single value it leaves: no float evaluator can fail or panic once its operands are on the stack |

## Left out

- src/expression.rs: its `try_from` is an unfinished stub that ignores its tokens and returns an empty expression. It is not modelled as written. The expression layer is instead written generically over the evaluator contract, and its behaviour (classification order, arity errors, capacity, evaluation loop) follows what the crate's tests expect.
- src/convert_ref.rs and src/try_from_ref.rs are not part of this model. They delegate to the standard library's numeric `from_str`. Scenarios take the operand conversion as a parameter and state what it must read from the words they use; a real parser also reads "+3" or "03" as 3, which those requirements allow.
- src/try_from_iterator.rs is not part of this model. It only declares the `TryFromIterator` trait and has no implementation; building an expression from words is `Expression.Build`.
- `main` of examples/custom_expression.rs is not modelled: it is command-line input and printing. Its default expression `1 1 +` is covered by a scenario.
- src/variable/dummy_variables.rs is not part of this model. It is a container whose `index` panics. That panic cannot be reached: `DummyVariable` refuses every token, so an expression over it has no variable to look up. Expressions without variables use a lookup that returns `None`.
- `Display` of `DummyVariable` always fails. No token of an expression over it is a variable, so the model renders it as empty text (`Scenarios.IntShows`).
- The type aliases of src/evaluate/mod.rs, and the module wiring in src/operate/mod.rs and src/variable/mod.rs, have no behaviour. src/operate/integer.rs is not declared in src/operate/mod.rs; it is modelled as if it were.
- `PhantomData` / `_Phantom` variants and their `unreachable!()` arms are type-level artefacts and have no counterpart.
- FloatArith.Arith: floating-point results (rounding, NaN, infinity, `9 0 /` giving infinity) are not modelled. Each float operation is an uninterpreted function, so float examples state which operation gets which operands, not numeric values.
- IntEvaluator.Evaluate: panics are preconditions (`Defined`), not outcomes. These are an `unwrap()` on a stack shorter than `operands_needed`, `-MIN` for Neg, and `MIN % -1` for Rem, which the source does not guard. The expression layer reports the first as `StackUnderflow` and the rest as `Panic`.
- IntOperator.Operate: `b.pow(exp)` is unchecked in the source, so overflow panics in a debug build and wraps in a release build. An overflowing power is a precondition (`Defined`), and its wrap-around is not modelled.
- IntEvaluator.CheckedPower: `checked_pow` is modelled by its result (the exact power if it fits the type), not by its repeated-squaring loop.
- IntEvaluator.UsizeMax / UsizeFromStr.UsizeMax: `usize` is taken to be 64 bits wide.
- UsizeFromStr.ParseUsize: this is the standard library's current `from_str` for unsigned integers. An optional leading `+` is accepted, and a lone `+` is `InvalidDigit`. The error is the `IntErrorKind` alone, not the opaque `ParseIntError`.
- GetVariable.BTreeMapGet: keys are integers, so an arbitrary `Ord` key type is not modelled. The tree is its sorted entry sequence.
- GetVariable.HashMapGet: the map is its entry list, and hashing and bucket layout are not modelled.
- Stacks.WithCapacity: the reserved capacity is an allocation hint with no observable effect, so it is dropped. The planned capacity is still proved to bound the stack (`Expression.ReplayWithinCapacity`).
- The doc comment on the float operators' Pow says it pops 1 value. The code's table says 2, and the model follows the code (`FloatOperator.Counterpart`).
- The operand-order discrepancy below is modelled both ways: `EvaluateWith(TopFirst, ...)` is the code as written, and `Evaluate` is the push order the tests expect.

## Findings

| source | as written | input that shows it | evidently intended | confidence | as-written member | corrected member |
|---|---|---|---|---|---|---|
| src/evaluate/integer.rs:77-121 | the two-operand evaluators bind `(a, b)` to the result of `pop_two_operands`, which is `(top, next)`, and compute `a - b`, `a / b` and so on | `4 3 -` leaves -1 (test at lines 230-235 expects 1); `125 20 +` on `i8` reports `AddOverflow(20, 125)` (test at lines 222-227 expects `AddOverflow(125, 20)`); `3 10 pow` on `i8` reports `PowOverflow(10, 3)` (test at lines 310-315 expects `PowOverflow(3, 10)`); `3 -10 pow` on `i8` reports `PowOverflow(-10, 3)`, a different variant (test at lines 318-323 expects `ConvertToU32(-10)`) | `a` is the value pushed earlier, `b` the one pushed later | high; not executed | IntEvaluator.AsWrittenExamples | IntEvaluator.CorrectedExamples |
| src/evaluate/float.rs:78-123 | the same binding of `(a, b)` to `(top, next)` | `4 3 -` computes `3 - 4` (test at lines 235-241 expects 1.0); `3 4 + $0 -` with `[3, 500]` computes `3 - 7` (test at lines 399-406 expects 4.0, which the push-order reading gives for the text read with `VarIdx`) | `a` is the value pushed earlier | high; not executed | FloatEvaluator.AsWrittenExamples | Scenarios.VariableExample |
| src/operate/float.rs:82-127 | the same binding of `(a, b)` to `(top, next)`; Swap then pushes the pair back unchanged | `4 3 -` computes `3 - 4` (test at lines 206-210 expects 1.0) | `a` is the value pushed earlier | high; not executed | FloatOperator.AsWrittenExamples | FloatOperator.BinaryOnTwoPushes |

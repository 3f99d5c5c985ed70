/** The expression layer on top of the `Evaluate` contract: classifying raw
    tokens, the arity simulation that accepts or rejects a token sequence,
    the stack capacity it plans, rendering, and the evaluation loop. It is
    generic over the operand, variable and evaluator types, exactly as the
    trait in src/evaluate/mod.rs leaves them. */
module Expression {
  import opened Wrappers
  import opened Stacks
  import opened Contract

  /** One classified token. */
  datatype Token<T, V, E> = Operand(value: T) | Variable(name: V) | Evaluator(op: E)

  datatype ArityErr = NotEnoughOperands | TooManyOperands

  /** Why an expression could not be built: a token none of the three
      conversions accepts (with all three reasons), or an arity failure. */
  datatype BuildErr<OE, VE, EE> =
    | InvalidToken(operand: OE, variable: VE, evaluator: EE)
    | OperandErr(arity: ArityErr)

  /** The per-type fallible conversions from a token. */
  datatype Parsers<T, V, E, OE, VE, EE> = Parsers(
    operand: string -> Result<T, OE>,
    variable: string -> Result<V, VE>,
    evaluator: string -> Result<E, EE>)

  /** The canonical text of each kind of token. */
  datatype Shows<!T, !V, !E> = Shows(
    operand: T -> string,
    variable: V -> string,
    evaluator: E -> string)

  /** A validated expression: the classified tokens and the stack capacity
      evaluation needs. */
  datatype Expr<T, V, E> = Expr(tokens: seq<Token<T, V, E>>, maxStack: nat)

  // ---------------------------------------------------------------------
  // Classification

  /** `token` is read as `t` by the conversion for `t`'s kind. */
  ghost predicate Denotes<T, V, E, OE, VE, EE>(p: Parsers<T, V, E, OE, VE, EE>, token: string, t: Token<T, V, E>)
  {
    match t
    case Operand(x) => p.operand(token) == Ok(x)
    case Variable(v) => p.variable(token) == Ok(v)
    case Evaluator(e) => p.evaluator(token) == Ok(e)
  }

  /** Classifies one token, trying the evaluator conversion first, then the
      variable conversion, then the operand conversion. */
  function Classify<T, V, E, OE, VE, EE>(p: Parsers<T, V, E, OE, VE, EE>, token: string)
    : (r: Result<Token<T, V, E>, BuildErr<OE, VE, EE>>)
    ensures r.Ok? ==> Denotes(p, token, r.value)
    ensures r.Ok? && !r.value.Evaluator? ==> p.evaluator(token).Err?
    ensures r.Ok? && r.value.Operand? ==> p.variable(token).Err?
    ensures r.Err? <==> p.evaluator(token).Err? && p.variable(token).Err? && p.operand(token).Err?
    ensures r.Err? ==>
      r.error == InvalidToken(p.operand(token).error, p.variable(token).error, p.evaluator(token).error)
  {
    match p.evaluator(token)
    case Ok(e) => Ok(Evaluator(e))
    case Err(ee) =>
      match p.variable(token)
      case Ok(v) => Ok(Variable(v))
      case Err(ve) =>
        match p.operand(token)
        case Ok(x) => Ok(Operand(x))
        case Err(oe) => Err(InvalidToken(oe, ve, ee))
  }

  /** Classifies every token; the first token that fails decides the error. */
  function ClassifyAll<T, V, E, OE, VE, EE>(p: Parsers<T, V, E, OE, VE, EE>, words: seq<string>)
    : (r: Result<seq<Token<T, V, E>>, BuildErr<OE, VE, EE>>)
    ensures r.Ok? <==> forall i :: 0 <= i < |words| ==> Classify(p, words[i]).Ok?
    ensures r.Ok? ==>
      && |r.value| == |words|
      && forall i :: 0 <= i < |words| ==> Denotes(p, words[i], r.value[i])
    ensures r.Err? ==>
      exists i :: 0 <= i < |words| && Classify(p, words[i]) == Err(r.error)
        && forall j :: 0 <= j < i ==> Classify(p, words[j]).Ok?
    decreases |words|
  {
    if |words| == 0 then Ok([])
    else
      match Classify(p, words[0])
      case Err(e) => Err(e)
      case Ok(t) =>
        match ClassifyAll(p, words[1..])
        case Err(e) =>
          ghost var i :| 0 <= i < |words[1..]| && Classify(p, words[1..][i]) == Err(e)
            && forall j :: 0 <= j < i ==> Classify(p, words[1..][j]).Ok?;
          assert Classify(p, words[i + 1]) == Err(e);
          Err(e)
        case Ok(ts) =>
          assert forall i :: 1 <= i < |words| ==> words[i] == words[1..][i - 1];
          Ok([t] + ts)
  }

  /** When every token classifies, the classified sequence is the tokens'
      classifications, in order. */
  lemma {:induction false} ClassifyAllPointwise<T, V, E, OE, VE, EE>(
    p: Parsers<T, V, E, OE, VE, EE>, words: seq<string>, tokens: seq<Token<T, V, E>>)
    requires |words| == |tokens|
    requires forall i :: 0 <= i < |words| ==> Classify(p, words[i]) == Ok(tokens[i])
    ensures ClassifyAll(p, words) == Ok(tokens)
    decreases |words|
  {
    if |words| > 0 {
      ClassifyAllPointwise(p, words[1..], tokens[1..]);
      assert tokens == [tokens[0]] + tokens[1..];
    }
  }

  // ---------------------------------------------------------------------
  // Arity simulation

  /** One token's effect on the running operand balance; `None` when an
      evaluator needs more values than the balance holds. */
  function StepBalance<T, V, E>(ar: Arity<E>, t: Token<T, V, E>, b: nat): Option<nat>
  {
    match t
    case Evaluator(e) =>
      if b < ar.needed(e) then None else Some(b - ar.needed(e) + ar.generated(e))
    case _ => Some(b + 1)
  }

  /** The balance after the whole sequence, starting from `b`, or `None`
      on the first underflow. */
  function Simulate<T, V, E>(ar: Arity<E>, tokens: seq<Token<T, V, E>>, b: nat): Option<nat>
    decreases |tokens|
  {
    if |tokens| == 0 then Some(b)
    else
      match StepBalance(ar, tokens[0], b)
      case None => None
      case Some(b') => Simulate(ar, tokens[1..], b')
  }

  /** The arity validator: accepted exactly when the balance never
      underflows and ends at one. */
  function Validate<T, V, E>(ar: Arity<E>, tokens: seq<Token<T, V, E>>): Result<(), ArityErr>
  {
    match Simulate(ar, tokens, 0)
    case None => Err(NotEnoughOperands)
    case Some(b) =>
      if b == 1 then Ok(())
      else if b == 0 then Err(NotEnoughOperands)
      else Err(TooManyOperands)
  }

  function Larger(x: nat, y: nat): nat
  {
    if x < y then y else x
  }

  /** The largest balance the simulation reaches from `b`, up to the first
      underflow. */
  function MaxFrom<T, V, E>(ar: Arity<E>, tokens: seq<Token<T, V, E>>, b: nat): nat
    decreases |tokens|
  {
    if |tokens| == 0 then b
    else
      match StepBalance(ar, tokens[0], b)
      case None => b
      case Some(b') => Larger(b, MaxFrom(ar, tokens[1..], b'))
  }

  /** The stack-depth planner: the capacity evaluation will need. */
  function MaxDepth<T, V, E>(ar: Arity<E>, tokens: seq<Token<T, V, E>>): nat
  {
    MaxFrom(ar, tokens, 0)
  }

  // ---------------------------------------------------------------------
  // An independent account of the simulation: plain push/pop counting

  /** What one token adds to the number of values on the stack. */
  function Delta<T, V, E>(ar: Arity<E>, t: Token<T, V, E>): int
  {
    if t.Evaluator? then ar.generated(t.op) - ar.needed(t.op) else 1
  }

  /** The net number of values a token sequence leaves on the stack. */
  function Net<T, V, E>(ar: Arity<E>, tokens: seq<Token<T, V, E>>): int
    decreases |tokens|
  {
    if |tokens| == 0 then 0 else Delta(ar, tokens[0]) + Net(ar, tokens[1..])
  }

  /** Every evaluator finds, from a start of `b`, at least the values it
      needs already counted before it. */
  ghost predicate CanRun<T, V, E>(ar: Arity<E>, tokens: seq<Token<T, V, E>>, b: nat)
  {
    forall k :: 0 <= k < |tokens| && tokens[k].Evaluator? ==>
      b + Net(ar, tokens[..k]) >= ar.needed(tokens[k].op)
  }

  /** The net count of a non-empty prefix splits off its first token. */
  lemma NetPrefix<T, V, E>(ar: Arity<E>, tokens: seq<Token<T, V, E>>, k: nat)
    requires 1 <= k <= |tokens|
    ensures Net(ar, tokens[..k]) == Delta(ar, tokens[0]) + Net(ar, tokens[1..][..k - 1])
  {
    assert tokens[..k][1..] == tokens[1..][..k - 1];
  }

  /** The simulation agrees with counting: it succeeds exactly when no
      evaluator is short of values, and then ends at the net count. */
  lemma {:induction false} SimulateCounts<T, V, E>(ar: Arity<E>, tokens: seq<Token<T, V, E>>, b: nat)
    ensures Simulate(ar, tokens, b).Some? <==> CanRun(ar, tokens, b)
    ensures Simulate(ar, tokens, b).Some? ==> Simulate(ar, tokens, b).value == b + Net(ar, tokens)
    decreases |tokens|
  {
    if |tokens| == 0 {
    } else {
      var t := tokens[0];
      var rest := tokens[1..];
      assert tokens[..0] == [];
      match StepBalance(ar, t, b)
      case None =>
        assert t.Evaluator? && b + Net(ar, tokens[..0]) < ar.needed(t.op);
      case Some(b') =>
        assert b' == b + Delta(ar, t);
        SimulateCounts(ar, rest, b');
        forall k | 1 <= k <= |tokens|
          ensures b + Net(ar, tokens[..k]) == b' + Net(ar, rest[..k - 1])
        {
          NetPrefix(ar, tokens, k);
        }
        if CanRun(ar, rest, b') {
          forall k | 0 <= k < |tokens| && tokens[k].Evaluator?
            ensures b + Net(ar, tokens[..k]) >= ar.needed(tokens[k].op)
          {
            if k > 0 {
              assert tokens[k] == rest[k - 1];
            }
          }
        }
        if CanRun(ar, tokens, b) {
          forall k | 0 <= k < |rest| && rest[k].Evaluator?
            ensures b' + Net(ar, rest[..k]) >= ar.needed(rest[k].op)
          {
            assert rest[k] == tokens[k + 1];
          }
        }
    }
  }

  /** The arity validator's verdict matches the manual count: accept
      exactly when no evaluator is ever short and one value remains;
      `TooManyOperands` exactly when more than one remains. */
  lemma ValidateAgreesWithCounting<T, V, E>(ar: Arity<E>, tokens: seq<Token<T, V, E>>)
    ensures Validate(ar, tokens).Ok? <==> CanRun(ar, tokens, 0) && Net(ar, tokens) == 1
    ensures Validate(ar, tokens) == Err(TooManyOperands) <==> CanRun(ar, tokens, 0) && Net(ar, tokens) > 1
    ensures Validate(ar, tokens) == Err(NotEnoughOperands) <==> !CanRun(ar, tokens, 0) || Net(ar, tokens) <= 0
  {
    SimulateCounts(ar, tokens, 0);
  }

  /** Running a prefix of a sequence that never underflows never
      underflows either, and ends at the prefix's net count. */
  lemma SimulatePrefix<T, V, E>(ar: Arity<E>, tokens: seq<Token<T, V, E>>, b: nat, k: nat)
    requires Simulate(ar, tokens, b).Some?
    requires k <= |tokens|
    ensures Simulate(ar, tokens[..k], b) == Some(b + Net(ar, tokens[..k]))
  {
    SimulateCounts(ar, tokens, b);
    var pre := tokens[..k];
    forall j | 0 <= j < |pre| && pre[j].Evaluator?
      ensures b + Net(ar, pre[..j]) >= ar.needed(pre[j].op)
    {
      assert pre[..j] == tokens[..j];
    }
    SimulateCounts(ar, pre, b);
  }

  /** `MaxFrom` is the peak of the running count: no prefix exceeds it and
      some prefix (possibly the empty one) reaches it. */
  lemma {:induction false} MaxFromIsPeak<T, V, E>(ar: Arity<E>, tokens: seq<Token<T, V, E>>, b: nat)
    requires Simulate(ar, tokens, b).Some?
    ensures forall k :: 0 <= k <= |tokens| ==> b + Net(ar, tokens[..k]) <= MaxFrom(ar, tokens, b)
    ensures exists k :: 0 <= k <= |tokens| && b + Net(ar, tokens[..k]) == MaxFrom(ar, tokens, b)
    decreases |tokens|
  {
    assert tokens[..0] == [];
    if |tokens| > 0 {
      var rest := tokens[1..];
      var b' := StepBalance(ar, tokens[0], b).value;
      MaxFromIsPeak(ar, rest, b');
      forall k | 1 <= k <= |tokens|
        ensures b + Net(ar, tokens[..k]) == b' + Net(ar, rest[..k - 1])
      {
        NetPrefix(ar, tokens, k);
      }
      if MaxFrom(ar, rest, b') > b {
        var k' :| 0 <= k' <= |rest| && b' + Net(ar, rest[..k']) == MaxFrom(ar, rest, b');
        assert b + Net(ar, tokens[..k' + 1]) == MaxFrom(ar, tokens, b);
      }
    }
  }

  /** The planned capacity bounds every intermediate count of an accepted
      sequence, and is reached by one of them. */
  lemma MaxDepthIsPeak<T, V, E>(ar: Arity<E>, tokens: seq<Token<T, V, E>>)
    requires Validate(ar, tokens).Ok?
    ensures forall k :: 0 <= k <= |tokens| ==> Net(ar, tokens[..k]) <= MaxDepth(ar, tokens)
    ensures exists k :: 0 <= k <= |tokens| && Net(ar, tokens[..k]) == MaxDepth(ar, tokens)
  {
    MaxFromIsPeak(ar, tokens, 0);
  }

  // ---------------------------------------------------------------------
  // Building, rendering

  /** An expression as construction leaves it: accepted by the validator
      and carrying the planned capacity. */
  ghost predicate Valid<T, V, E>(ar: Arity<E>, e: Expr<T, V, E>)
  {
    Validate(ar, e.tokens).Ok? && e.maxStack == MaxDepth(ar, e.tokens)
  }

  /** Builds an expression from raw tokens: classify them all, then check
      the arity, then plan the capacity. */
  function Build<T, V, E, OE, VE, EE>(p: Parsers<T, V, E, OE, VE, EE>, ar: Arity<E>, words: seq<string>)
    : (r: Result<Expr<T, V, E>, BuildErr<OE, VE, EE>>)
    ensures r.Ok? ==> Valid(ar, r.value) && |r.value.tokens| == |words|
    ensures r.Ok? ==> forall i :: 0 <= i < |words| ==> Denotes(p, words[i], r.value.tokens[i])
    ensures r.Ok? <==>
      ClassifyAll(p, words).Ok? && Validate(ar, ClassifyAll(p, words).value).Ok?
    ensures ClassifyAll(p, words).Err? ==> r == Err(ClassifyAll(p, words).error)
    ensures ClassifyAll(p, words).Ok? && Validate(ar, ClassifyAll(p, words).value).Err? ==>
      r == Err(OperandErr(Validate(ar, ClassifyAll(p, words).value).error))
  {
    match ClassifyAll(p, words)
    case Err(e) => Err(e)
    case Ok(tokens) =>
      match Validate(ar, tokens)
      case Err(a) => Err(OperandErr(a))
      case Ok(_) => Ok(Expr(tokens, MaxDepth(ar, tokens)))
  }

  function Show<T, V, E>(sh: Shows<T, V, E>, t: Token<T, V, E>): string
  {
    match t
    case Operand(x) => sh.operand(x)
    case Variable(v) => sh.variable(v)
    case Evaluator(e) => sh.evaluator(e)
  }

  /** The canonical text of each token, in order. */
  function Render<T, V, E>(sh: Shows<T, V, E>, tokens: seq<Token<T, V, E>>): (r: seq<string>)
    ensures |r| == |tokens|
    ensures forall i :: 0 <= i < |tokens| ==> r[i] == Show(sh, tokens[i])
  {
    seq(|tokens|, i requires 0 <= i < |tokens| => Show(sh, tokens[i]))
  }

  /** Words separated by single spaces. */
  function Join(words: seq<string>): string
    decreases |words|
  {
    if |words| == 0 then ""
    else if |words| == 1 then words[0]
    else words[0] + " " + Join(words[1..])
  }

  /** Each of `words` that a conversion accepts is the canonical text of
      the value it is read as. Only the words at hand are constrained: a
      number parser that also reads "+3" or "03" as 3 still qualifies for
      an expression written "3". */
  ghost predicate InvertsOn<T, V, E, OE, VE, EE>(p: Parsers<T, V, E, OE, VE, EE>, sh: Shows<T, V, E>, words: seq<string>)
  {
    forall i :: 0 <= i < |words| ==>
      && (p.operand(words[i]).Ok? ==> sh.operand(p.operand(words[i]).value) == words[i])
      && (p.variable(words[i]).Ok? ==> sh.variable(p.variable(words[i]).value) == words[i])
      && (p.evaluator(words[i]).Ok? ==> sh.evaluator(p.evaluator(words[i]).value) == words[i])
  }

  /** Rendering a built expression gives back the text it was built from,
      whenever each of its words renders the way it parses. */
  lemma RenderRoundTrip<T, V, E, OE, VE, EE>(
    p: Parsers<T, V, E, OE, VE, EE>, sh: Shows<T, V, E>, ar: Arity<E>, words: seq<string>)
    requires InvertsOn(p, sh, words)
    requires Build(p, ar, words).Ok?
    ensures Render(sh, Build(p, ar, words).value.tokens) == words
    ensures Join(Render(sh, Build(p, ar, words).value.tokens)) == Join(words)
  {
    var tokens := Build(p, ar, words).value.tokens;
    forall i | 0 <= i < |words|
      ensures Show(sh, tokens[i]) == words[i]
    {
      assert Denotes(p, words[i], tokens[i]);
    }
  }

  // ---------------------------------------------------------------------
  // Evaluation

  /** Why evaluation stopped. `StackUnderflow` is the source's failed
      `unwrap()` on a short stack and `Panic` its other panics; a validated
      expression never reaches the former. */
  datatype EvalErr<V, Err> =
    | EvaluatorErr(err: Err)
    | VariableNotFound(name: V)
    | StackUnderflow
    | Panic

  /** Evaluator `e` runs on `st` (enough values, no panic) and fails with
      `err`. */
  ghost predicate FailsWith<T(!new), E(!new), Err>(f: Family<T, E, Err>, e: E, st: Stack<T>, err: Err)
  {
    && f.arity.needed(e) <= Len(st)
    && f.defined(e, st)
    && f.evaluate.requires(e, st)
    && f.evaluate(e, st) == Err(err)
  }

  /** Evaluator `e` finds enough values on `st` but would panic there. */
  ghost predicate Panics<T, E, Err>(f: Family<T, E, Err>, e: E, st: Stack<T>)
  {
    f.arity.needed(e) <= Len(st) && !f.defined(e, st)
  }

  /** Replays the tokens against the stack: operands are pushed, variables
      looked up and pushed, evaluators run; the first error stops it and
      is the result, so an evaluator error is one that an evaluator of the
      expression really returned, and a panic one it really hits. */
  function Replay<T(!new), V, E(!new), Err>(
    f: Family<T, E, Err>, lookup: V -> Option<T>, tokens: seq<Token<T, V, E>>, s: Stack<T>)
    : (r: Result<Stack<T>, EvalErr<V, Err>>)
    requires Honest(f)
    ensures Simulate(f.arity, tokens, Len(s)).Some? ==>
      && !(r.Err? && r.error.StackUnderflow?)
      && (r.Ok? ==> Len(r.value) == Simulate(f.arity, tokens, Len(s)).value)
    ensures r.Err? && r.error.VariableNotFound? ==>
      Variable(r.error.name) in tokens && lookup(r.error.name).None?
    ensures r.Err? && r.error.EvaluatorErr? ==>
      exists e, st :: Evaluator(e) in tokens && FailsWith(f, e, st, r.error.err)
    ensures r.Err? && r.error.Panic? ==>
      exists e, st :: Evaluator(e) in tokens && Panics(f, e, st)
    decreases |tokens|
  {
    if |tokens| == 0 then Ok(s)
    else
      var rest := tokens[1..];
      assert forall t :: t in rest ==> t in tokens;
      match tokens[0]
      case Operand(x) => Replay(f, lookup, rest, Push(s, x))
      case Variable(v) =>
        (match lookup(v)
         case None => Err(VariableNotFound(v))
         case Some(x) => Replay(f, lookup, rest, Push(s, x)))
      case Evaluator(e) =>
        assert tokens[0] in tokens;
        if Len(s) < f.arity.needed(e) then Err(StackUnderflow)
        else if !f.defined(e, s) then
          assert Panics(f, e, s);
          Err(Panic)
        else
          match f.evaluate(e, s)
          case Err(err) =>
            assert FailsWith(f, e, s, err);
            Err(EvaluatorErr(err))
          case Ok(s') => Replay(f, lookup, rest, s')
  }

  /** Evaluates an expression on a fresh stack of the planned capacity and
      returns the one value left. A validated expression never runs short
      of values, and when every token succeeds it yields the single value
      that remains. */
  function Evaluate<T(!new), V, E(!new), Err>(f: Family<T, E, Err>, lookup: V -> Option<T>, e: Expr<T, V, E>)
    : (r: Result<T, EvalErr<V, Err>>)
    requires Honest(f)
    ensures Valid(f.arity, e) ==> !(r.Err? && r.error.StackUnderflow?)
    ensures Valid(f.arity, e) && Replay(f, lookup, e.tokens, New()).Ok? ==>
      && Len(Replay(f, lookup, e.tokens, New()).value) == 1
      && r == Ok(Replay(f, lookup, e.tokens, New()).value.items[0])
    ensures Replay(f, lookup, e.tokens, New()).Err? ==> r == Err(Replay(f, lookup, e.tokens, New()).error)
  {
    match Replay(f, lookup, e.tokens, WithCapacity(e.maxStack))
    case Err(err) => Err(err)
    case Ok(s) =>
      match Pop(s).0
      case None => Err(StackUnderflow)
      case Some(x) => Ok(x)
  }

  /** During the evaluation of a validated expression the stack never
      holds more values than the planned capacity. */
  lemma ReplayWithinCapacity<T(!new), V, E(!new), Err>(
    f: Family<T, E, Err>, lookup: V -> Option<T>, e: Expr<T, V, E>, k: nat)
    requires Honest(f)
    requires Valid(f.arity, e)
    requires k <= |e.tokens|
    ensures Replay(f, lookup, e.tokens[..k], New()).Ok? ==>
      Len(Replay(f, lookup, e.tokens[..k], New()).value) <= e.maxStack
  {
    SimulatePrefix(f.arity, e.tokens, 0, k);
    MaxDepthIsPeak(f.arity, e.tokens);
  }

  /** Replaying a concatenation replays the first part, stops with its
      error if it fails, and otherwise continues with the second part on
      the stack it leaves. */
  lemma {:induction false} ReplayAppend<T(!new), V, E(!new), Err>(
    f: Family<T, E, Err>, lookup: V -> Option<T>, a: seq<Token<T, V, E>>, b: seq<Token<T, V, E>>, s: Stack<T>)
    requires Honest(f)
    ensures Replay(f, lookup, a + b, s)
         == match Replay(f, lookup, a, s)
            case Err(x) => Err(x)
            case Ok(s') => Replay(f, lookup, b, s')
    decreases |a|
  {
    if |a| == 0 {
      assert a + b == b;
    } else {
      assert (a + b)[0] == a[0] && (a + b)[1..] == a[1..] + b;
      match a[0]
      case Operand(x) =>
        ReplayAppend(f, lookup, a[1..], b, Push(s, x));
      case Variable(v) =>
        if lookup(v).Some? {
          ReplayAppend(f, lookup, a[1..], b, Push(s, lookup(v).value));
        }
      case Evaluator(e) =>
        if Len(s) >= f.arity.needed(e) && f.defined(e, s) && f.evaluate(e, s).Ok? {
          ReplayAppend(f, lookup, a[1..], b, f.evaluate(e, s).value);
        }
    }
  }

  /** Every variable of the tokens has a value. */
  ghost predicate Resolves<T, V, E>(lookup: V -> Option<T>, tokens: seq<Token<T, V, E>>)
  {
    forall i :: 0 <= i < |tokens| && tokens[i].Variable? ==> lookup(tokens[i].name).Some?
  }

  /** Every evaluator of the tokens succeeds on any stack holding the
      values it needs. */
  ghost predicate NeverFails<T(!new), V, E(!new), Err>(f: Family<T, E, Err>, tokens: seq<Token<T, V, E>>)
  {
    forall e, st :: Evaluator(e) in tokens && f.arity.needed(e) <= Len(st) ==>
      f.defined(e, st) && f.evaluate.requires(e, st) && f.evaluate(e, st).Ok?
  }

  /** Progress: when the arity simulation never runs short, every variable
      resolves and no evaluator of the tokens can fail, the replay
      succeeds. This follows from `Replay`'s own contract, which traces
      each kind of failure back to a token: a missing variable, or an
      evaluator erring or panicking on a stack that holds what it needs. */
  lemma ReplayProgress<T(!new), V, E(!new), Err>(
    f: Family<T, E, Err>, lookup: V -> Option<T>, tokens: seq<Token<T, V, E>>, s: Stack<T>)
    requires Honest(f)
    requires Simulate(f.arity, tokens, Len(s)).Some?
    requires Resolves(lookup, tokens) && NeverFails(f, tokens)
    ensures Replay(f, lookup, tokens, s).Ok?
  {
  }

  /** A validated expression whose variables all resolve and whose
      evaluators cannot fail evaluates to the single value it leaves. */
  lemma EvaluateSucceeds<T(!new), V, E(!new), Err>(f: Family<T, E, Err>, lookup: V -> Option<T>, e: Expr<T, V, E>)
    requires Honest(f) && Valid(f.arity, e)
    requires Resolves(lookup, e.tokens) && NeverFails(f, e.tokens)
    ensures Replay(f, lookup, e.tokens, New()).Ok?
    ensures Evaluate(f, lookup, e) == Ok(Replay(f, lookup, e.tokens, New()).value.items[0])
  {
    ReplayProgress(f, lookup, e.tokens, New());
  }
}

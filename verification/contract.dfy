/** The `Evaluate` trait of src/evaluate/mod.rs: an evaluator declares how
    many values it pops and pushes, and `evaluate` must keep that promise.
    The expression layer is built on nothing else. */
module Contract {
  import opened Wrappers
  import opened Stacks

  /** `operands_needed` and `operands_generated` of one evaluator type. */
  datatype Arity<!E> = Arity(needed: E -> nat, generated: E -> nat)

  /** The stack effect an arity announces: `needed` values were taken off
      `before`, the values below them are untouched, and exactly
      `generated` new values sit on top. */
  ghost predicate Effect<T>(before: Stack<T>, after: Stack<T>, needed: nat, generated: nat)
  {
    && needed <= Len(before)
    && Len(after) == Len(before) - needed + generated
    && after.items[..Len(before) - needed] == before.items[..Len(before) - needed]
  }

  /** One evaluator type as a record of its trait members.
      `defined(e, s)` says that the source does not panic while evaluating
      `e` on `s` for any reason other than a short stack (an unchecked
      overflow, say); `evaluate` may only be called on such stacks that
      also hold at least `needed` values. */
  datatype Family<!T, !E, Err> = Family(
    arity: Arity<E>,
    defined: (E, Stack<T>) -> bool,
    evaluate: (E, Stack<T>) --> Result<Stack<T>, Err>)

  /** Arity honesty, the invariant the expression layer relies on: with
      enough values on the stack, `evaluate` pops exactly `needed` of them
      and pushes exactly `generated`. */
  ghost predicate Honest<T(!new), E(!new), Err>(f: Family<T, E, Err>)
  {
    forall e, s ::
      f.arity.needed(e) <= Len(s) && f.defined(e, s) ==>
        && f.evaluate.requires(e, s)
        && (f.evaluate(e, s).Ok? ==>
              Effect(s, f.evaluate(e, s).value, f.arity.needed(e), f.arity.generated(e)))
  }

  /** Replacing the top `k` values by `pushed` has the effect of an
      evaluator that needs `k` values and generates `|pushed|`. */
  lemma ReplaceTop<T>(s: Stack<T>, k: nat, pushed: seq<T>)
    requires k <= Len(s)
    ensures Effect(s, Stack(s.items[..Len(s) - k] + pushed), k, |pushed|)
  {
    assert (s.items[..Len(s) - k] + pushed)[..Len(s) - k] == s.items[..Len(s) - k];
  }
}

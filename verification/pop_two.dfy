/** The two-value pop of src/lib.rs and the operand order the evaluators
    build on it. */
module PopTwo {
  import opened Wrappers
  import opened Stacks

  /** Which operand a two-value pop names first.
      `TopFirst`: (most recently pushed, the one below it) -- what
      `pop_two_operands` returns.
      `EarlierFirst`: (pushed earlier, pushed later) -- what the
      evaluators' own tests expect, so that "4 3 -" is 4 - 3. */
  datatype Order = TopFirst | EarlierFirst

  /** `pop_two_operands`: both pops run before the result is matched, so a
      one-element stack loses its element even though `None` comes back. */
  function PopTwoOperands<T>(s: Stack<T>): (r: (Option<(T, T)>, Stack<T>))
    ensures Len(s) >= 2 ==>
      r.0 == Some((s.items[Len(s) - 1], s.items[Len(s) - 2]))
      && r.1.items == s.items[..Len(s) - 2]
    ensures Len(s) == 1 ==> r.0.None? && IsEmpty(r.1)
    ensures Len(s) == 0 ==> r.0.None? && r.1 == s
  {
    var (first, s1) := Pop(s);
    var (second, s2) := Pop(s1);
    match (first, second)
    case (Some(a), Some(b)) => (Some((a, b)), s2)
    case _ => (None, s2)
  }

  /** The first component of a successful pop is the value pushed last, the
      second the one pushed before it, and the stack below is restored. */
  lemma PopTwoAfterTwoPushes<T>(s: Stack<T>, x: T, y: T)
    ensures PopTwoOperands(Push(Push(s, x), y)) == (Some((y, x)), s)
  {
    PushThenPop(Push(s, x), y);
    PushThenPop(s, x);
  }

  /** The two operands of a binary evaluator under `order`, with the stack
      below them; the caller has checked that two values are present, as
      the source's `unwrap()` demands. They are what `pop_two_operands`
      hands back, in its order for `TopFirst` and swapped for
      `EarlierFirst`, with the stack it leaves behind. */
  function Operands<T>(order: Order, s: Stack<T>): (r: (T, T, Stack<T>))
    requires Len(s) >= 2
    ensures PopTwoOperands(s) == (Some(if order == TopFirst then (r.0, r.1) else (r.1, r.0)), r.2)
  {
    var top, next := s.items[Len(s) - 1], s.items[Len(s) - 2];
    var rest := Stack(s.items[..Len(s) - 2]);
    if order == TopFirst then (top, next, rest) else (next, top, rest)
  }

  /** Pushing the operands back onto the stack below them, in the order
      they were pushed, restores the stack: reading them loses nothing. */
  lemma OperandsPushBack<T>(order: Order, s: Stack<T>)
    requires Len(s) >= 2
    ensures var (a, b, rest) := Operands(order, s);
      Push(Push(rest, if order == TopFirst then b else a), if order == TopFirst then a else b) == s
  {
    assert s.items[..Len(s) - 2] + [s.items[Len(s) - 2]] + [s.items[Len(s) - 1]] == s.items;
  }

  /** Reading the operands of two freshly pushed values: `EarlierFirst`
      gives them in push order, `TopFirst` reversed. */
  lemma OperandsAfterTwoPushes<T>(order: Order, s: Stack<T>, x: T, y: T)
    ensures Operands(order, Push(Push(s, x), y))
         == if order == EarlierFirst then (x, y, s) else (y, x, s)
  {
    var t := Push(Push(s, x), y);
    assert t.items[..Len(t) - 2] == s.items;
  }
}

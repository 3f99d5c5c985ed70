/** The LIFO stack every evaluator works on (src/stack.rs). */
module Stacks {
  import opened Wrappers

  /** A stack of values; the LAST element of `items` is the top. The
      capacity reserved by `with_capacity` is an allocation hint only and
      has no counterpart here. */
  datatype Stack<T> = Stack(items: seq<T>)

  function Len<T>(s: Stack<T>): nat
  {
    |s.items|
  }

  /** `Stack::new`: the empty stack. */
  function New<T>(): (s: Stack<T>)
    ensures Len(s) == 0
    ensures IsEmpty(s)
  {
    Stack([])
  }

  /** `Stack::with_capacity`: whatever the capacity, the same empty stack as `new`. */
  function WithCapacity<T>(capacity: nat): (s: Stack<T>)
    ensures s == New()
    ensures Len(s) == 0
  {
    Stack([])
  }

  /** `is_empty`: holds exactly when the length is zero. */
  function IsEmpty<T>(s: Stack<T>): (b: bool)
    ensures b <==> Len(s) == 0
    ensures b <==> s == Stack([])
  {
    |s.items| == 0
  }

  /** `push`: the value becomes the new top and everything else stays. */
  function Push<T>(s: Stack<T>, value: T): (r: Stack<T>)
    ensures Len(r) == Len(s) + 1
    ensures r.items[Len(s)] == value
    ensures r.items[..Len(s)] == s.items
  {
    Stack(s.items + [value])
  }

  /** `pop`: the top value and the stack below it, or `None` and the
      unchanged (empty) stack. */
  function Pop<T>(s: Stack<T>): (r: (Option<T>, Stack<T>))
    ensures IsEmpty(s) <==> r.0.None?
    ensures IsEmpty(s) ==> r.1 == s
    ensures !IsEmpty(s) ==> Len(r.1) == Len(s) - 1 && r.0.value == s.items[Len(s) - 1]
  {
    if |s.items| == 0 then (None, s)
    else (Some(s.items[|s.items| - 1]), Stack(s.items[..|s.items| - 1]))
  }

  /** Pushing a value and popping it again returns that value and
      restores the previous contents. */
  lemma PushThenPop<T>(s: Stack<T>, value: T)
    ensures Pop(Push(s, value)) == (Some(value), s)
  {
    assert Push(s, value).items[..Len(s)] == s.items;
  }

  /** Pushing back what a pop of a non-empty stack took restores the
      stack. */
  lemma PopThenPush<T>(s: Stack<T>)
    requires !IsEmpty(s)
    ensures Push(Pop(s).1, Pop(s).0.value) == s
  {
    assert s.items[..Len(s) - 1] + [s.items[Len(s) - 1]] == s.items;
  }

  /** Popping an empty stack gives `None` and leaves it empty. */
  lemma PopEmpty<T>(s: Stack<T>)
    requires IsEmpty(s)
    ensures Pop(s) == (None, New<T>())
  {
  }
}

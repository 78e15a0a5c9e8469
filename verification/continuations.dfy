/**
 * The continuation stack: deferred (address, bank) pairs, pushed by the
 * conditional jumps and calls and popped by returns and on revisits.
 * The source keeps them in a linked list behind `top` (`state_push`,
 * `state_pop`); here the top of the stack is the last element.
 */
module Continuations {
  import opened Wrappers
  import opened Bits
  import opened Memory

  /** Resume decoding at `pc`, with `bank` selected. */
  datatype Continuation = Continuation(pc: Word, bank: Bank)

  type Stack = seq<Continuation>

  function Push(st: Stack, c: Continuation): (r: Stack)
    ensures |r| == |st| + 1
    ensures r[|st|] == c
    ensures r[..|st|] == st
  {
    st + [c]
  }

  /** The top entry and what lies below it. */
  datatype Popped = Popped(top: Continuation, rest: Stack)

  /** Reading `top` and popping it; `None` where the source has a NULL `top`. */
  function Pop(st: Stack): (r: Option<Popped>)
    ensures r.None? <==> |st| == 0
    ensures r.Some? ==> Push(r.value.rest, r.value.top) == st
  {
    if |st| == 0 then None else Some(Popped(st[|st| - 1], st[..|st| - 1]))
  }

  /** Last in, first out: popping undoes a push exactly. */
  lemma PopPush(st: Stack, c: Continuation)
    ensures Pop(Push(st, c)) == Some(Popped(c, st))
  {
    assert Push(st, c)[..|st|] == st;
  }
}

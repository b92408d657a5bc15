/** The operand stack (vm/ethvm/stack.go). The top is the last element. */
module Stacks {
  import opened Words

  class Stack {
    var data: seq<Word>

    constructor ()
      ensures data == []
    {
      data := [];
    }

    /** Back: the n-th item from the top. */
    function Back(n: nat): Word
      requires n < |data|
      reads this
    {
      data[|data| - n - 1]
    }

    method Push(d: Word)
      modifies this
      ensures data == old(data) + [d]
    {
      data := data + [d];
    }

    method Pop() returns (ret: Word)
      requires 1 <= |data|
      modifies this
      ensures old(data) == data + [ret]
    {
      ret := data[|data| - 1];
      data := data[..|data| - 1];
    }

    /** n pops in a row: the items taken, first popped first. */
    method PopN(n: nat) returns (items: seq<Word>)
      requires n <= |data|
      modifies this
      ensures data == old(data)[..|old(data)| - n]
      ensures |items| == n && forall i | 0 <= i < n :: items[i] == old(Back(i))
    {
      items := [];
      while |items| < n
        invariant |items| <= n && data == old(data)[..|old(data)| - |items|]
        invariant forall i | 0 <= i < |items| :: items[i] == old(Back(i))
      {
        var item := Pop();
        items := items + [item];
      }
    }

    /** Dup duplicates the n-th item, counting the top as the first. */
    method Dup(n: nat)
      requires 1 <= n <= |data|
      modifies this
      ensures data == old(data) + [old(Back(n - 1))]
    {
      Push(data[|data| - n]);
    }

    /** Swap exchanges the top with the n-th item, counting the top as the first. */
    method Swap(n: nat)
      requires 1 <= n <= |data|
      modifies this
      ensures |data| == |old(data)|
      ensures Back(0) == old(Back(n - 1)) && Back(n - 1) == old(Back(0))
      ensures forall i | 0 <= i < |data| && i != |data| - n && i != |data| - 1 :: data[i] == old(data)[i]
    {
      data := data[|data| - n := data[|data| - 1]][|data| - 1 := data[|data| - n]];
    }
  }
}

/** The operand stack of the evaluator: push, pop, size and reset. */
module ArrayStacks {
  import opened Wrappers

  class ArrayStack {
    /** The stacked values, bottom first. */
    var data: seq<real>

    constructor ()
      ensures data == []
    {
      data := [];
    }

    method Push(v: real)
      modifies this
      ensures data == old(data) + [v]
    {
      data := data + [v];
    }

    /** Removes and returns the top value; an empty stack is an error. */
    method Pop() returns (r: Option<real>)
      modifies this
      ensures old(data) == [] ==> r == None && data == []
      ensures old(data) != [] ==> r == Some(old(data)[|old(data)| - 1]) && data == old(data)[..|old(data)| - 1]
    {
      if |data| == 0 {
        r := None;
      } else {
        r := Some(data[|data| - 1]);
        data := data[..|data| - 1];
      }
    }

    method Size() returns (n: nat)
      ensures n == |data|
    {
      n := |data|;
    }

    method Reset()
      modifies this
      ensures data == []
    {
      data := [];
    }
  }
}

/** `CallExceptionList`: the grow-only list of the call exceptions caught
    while dispatching one call, in the order they were caught. */
module ExceptionLists {
  import opened Wrappers
  import opened CallExceptions

  /** `IndexOutOfBoundsException`. */
  datatype IndexError = IndexOutOfBounds(index: int)

  class CallExceptionList {
    /** The backing `ArrayList`. There is no removal operation. */
    var exceptions: seq<CallException>

    /** A new list is empty. */
    constructor ()
      ensures exceptions == []
    {
      exceptions := [];
    }

    /** `add(exception)`: appends, leaving every earlier element in place. */
    method Add(exception: CallException)
      modifies this
      ensures exceptions == old(exceptions) + [exception]
      ensures Size() == old(Size()) + 1
      ensures Last() == Some(exception)
      ensures forall i | 0 <= i < old(Size()) :: Get(i) == old(Get(i))
    {
      exceptions := exceptions + [exception];
    }

    /** `size()`. */
    function Size(): (n: int)
      reads this
      ensures n >= 0
      ensures n == |exceptions|
    {
      |exceptions|
    }

    /** `get(index)`: fails with `IndexOutOfBoundsException` outside
        [0, size()). */
    function Get(index: int): (r: Result<CallException, IndexError>)
      reads this
      ensures r.Success? <==> 0 <= index < Size()
      ensures r.Success? ==> r.value == exceptions[index]
      ensures r.Failure? ==> r.error == IndexOutOfBounds(index)
    {
      if 0 <= index < |exceptions| then Success(exceptions[index]) else Failure(IndexOutOfBounds(index))
    }

    /** `last()`: null when the list is empty, else the element at the
        highest index. */
    function Last(): (r: Option<CallException>)
      reads this
      ensures r.None? <==> Size() == 0
      ensures r.Some? ==> Get(Size() - 1) == Success(r.value)
    {
      if Size() == 0 then None else Some(Get(Size() - 1).value)
    }
  }
}

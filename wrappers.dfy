/** Shared value types: optional values, JSON slots, and the Python faults that the
    modelled code can raise. */
module Wrappers {

  datatype Option<T> = None | Some(value: T)

  /** A JSON object member as the Python code sees it: the key may be missing, may map to
      `null`, or may hold a value. Indexing a missing key raises `KeyError`; indexing into
      `None` raises `TypeError`. */
  datatype Slot<T> = Absent | Null | Present(value: T)

  /** The exceptions the modelled Python code can raise. */
  datatype Fault =
    | KeyError(key: string)
    | TypeError
    | IndexError
    | ValueError
    | AttributeError

  datatype Result<T> = Ok(value: T) | Err(fault: Fault)
  {
    predicate IsFailure() { Err? }

    function PropagateFailure<U>(): Result<U>
      requires Err?
    {
      Err(fault)
    }

    function Extract(): T
      requires Ok?
    {
      value
    }
  }

  /** The fault raised by subscripting `d[key]` when `d[key]` is not a present value. */
  function SlotFault<T>(s: Slot<T>, key: string): Fault
    requires !s.Present?
  {
    if s.Absent? then KeyError(key) else TypeError
  }

  /** `d[key]` on a member slot: its value, or the fault subscripting raises. */
  function Get<T>(s: Slot<T>, key: string): (r: Result<T>)
    ensures r.Ok? <==> s.Present?
    ensures r.Ok? ==> r.value == s.value
    ensures s.Absent? ==> r == Err(KeyError(key))
    ensures s.Null? ==> r == Err(TypeError)
  {
    if s.Present? then Ok(s.value) else Err(SlotFault(s, key))
  }
}

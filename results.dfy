/** The two ways a conversion can fail: the dictionary lookups of the converter raise a
    KeyError for a shape it does not know or a Voigt quantity it does not support. */
module Results {

  datatype Error =
    | UnknownShape(shape: seq<nat>)
    | UnknownQuantity(name: string)

  datatype Result<T> = Ok(value: T) | Err(error: Error)
  {
    predicate IsFailure()
    {
      Err?
    }

    function PropagateFailure<U>(): Result<U>
      requires Err?
    {
      Err(error)
    }

    function Extract(): T
      requires Ok?
    {
      value
    }
  }
}

/** The two outcome types shared by every component. */
module Options {
  datatype Option<+T> = None | Some(value: T)

  /** `Failure` stands for a thrown exception; its text is not modelled. */
  datatype Result<+T> = Success(value: T) | Failure {
    predicate IsFailure() { Failure? }
    function PropagateFailure<U>(): Result<U>
      requires Failure?
    {
      Failure
    }
    function Extract(): T
      requires Success?
    {
      value
    }
    function ToOption(): Option<T> {
      if Success? then Some(value) else None
    }
  }
}

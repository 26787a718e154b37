/** Option and Result values used for the Go code's (value, error) returns. */
module Results {

  datatype Option<+T> = None | Some(value: T)

  /** A Go `(T, error)` pair: either a value or an error message. */
  datatype Result<+T> = Ok(value: T) | Err(msg: string) {
    predicate IsFailure() { Err? }

    function PropagateFailure<U>(): (r: Result<U>)
      requires Err?
    {
      Err(msg)
    }

    function Extract(): (v: T)
      requires Ok?
    {
      value
    }
  }

  /** A Go `error` that is either nil or carries a message. */
  datatype Outcome = Nil | Fail(msg: string)

  /** Regrouping a concatenation, stated once so that loop proofs can cite it for large terms. */
  lemma AppendAssoc<T>(a: seq<T>, b: seq<T>, c: seq<T>)
    ensures (a + b) + c == a + (b + c)
  {
  }
}

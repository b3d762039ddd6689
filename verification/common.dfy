/** Small shared vocabulary: optional values (Go pointers that may be nil),
    results carrying an error message, and Kubernetes namespaced names. */
module Common {

  /** A Go pointer or optional field: `None` is nil. */
  datatype Option<+T> = None | Some(value: T) {
    function GetOr(default: T): T {
      match this
      case Some(v) => v
      case None => default
    }
  }

  /** A Go `(value, error)` pair where exactly one side is meaningful. */
  datatype Result<+T> = Ok(value: T) | Err(msg: string) {
    predicate IsFailure() {
      Err?
    }

    function PropagateFailure<U>(): Result<U>
      requires Err?
    {
      Err(msg)
    }

    function Extract(): T
      requires Ok?
    {
      value
    }
  }

  /** `types.NamespacedName`. */
  datatype NamespacedName = NamespacedName(namespace: string, name: string)

  /** A byte string (Go `[]byte`); a nil slice and an empty slice are both `[]`,
      since every caller in the model only looks at the length. */
  type Bytes = seq<bv8>

  /** Overwrite `dst` with `src` when `src` is set (Go `setIfNonNil`). */
  function SetIfNonNil<T>(dst: Option<T>, src: Option<T>): (r: Option<T>)
    ensures src.Some? ==> r == src
    ensures src.None? ==> r == dst
  {
    if src.Some? then src else dst
  }
}

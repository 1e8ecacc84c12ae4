/** Small wrapper datatypes shared by the modules of the model. */
module Common {

  /** An optional value (Rust's `Option`). */
  datatype Option<+T> = None | Some(value: T)

  /** The outcome of an operation that can panic: a Rust panic (an arithmetic
      overflow, a division by zero, a failed `unwrap`, a capacity overflow of a
      fixed-size string) aborts the firmware, so the model returns `Panic`
      instead of a value. */
  datatype Fallible<+T> = Ok(value: T) | Panic

  function Min(a: nat, b: nat): nat { if a <= b then a else b }
}

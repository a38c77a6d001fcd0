/** Small result types and arithmetic shared by the modules. */
module Common {
  datatype Option<+T> = None | Some(value: T)

  /** The source's Result: a value or a stable reason code (the message text is left out). */
  datatype Result<+T> = Ok(value: T) | Err(code: int)

  /** A multiple of size is 0 or at least size away from 0. */
  lemma MultipleBounds(size: nat, q: int)
    ensures q >= 1 ==> size * q >= size
    ensures q <= -1 ==> size * q + size <= 0
    ensures q == 0 ==> size * q == 0
  {
  }
}

/** Result types shared by the models. */
module Common {

  datatype Option<+T> = None | Some(value: T)

  datatype Result<+T, +E> = Ok(value: T) | Err(error: E)

  /** One past the largest unsigned 256-bit number. */
  const UINT256_END: nat := 0x1_0000000000000000_0000000000000000_0000000000000000_0000000000000000
}

/** The wrapper types and the machine integer the components share. */
module Common {
  datatype Option<+T> = None | Some(value: T) {
    function GetOr(default: T): T { if Some? then value else default }
  }

  datatype Result<+T, +E> = Ok(value: T) | Err(error: E)

  newtype u32 = x: int | 0 <= x < 0x1_0000_0000
}

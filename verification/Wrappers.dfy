/** Result types and machine integers shared by the other modules. */
module Wrappers {

  datatype Option<+T> = None | Some(value: T) {
    function GetOr(default: T): T {
      match this
      case Some(v) => v
      case None => default
    }
  }

  datatype Result<+T, +E> = Ok(value: T) | Err(error: E)

  /** The configured transport of the tunnel. */
  datatype TransportConfig = Udp | Tcp

  const U64_SIZE: nat := 0x1_0000_0000_0000_0000
  const U64_MAX: nat := U64_SIZE - 1

  type u64 = x: int | 0 <= x < U64_SIZE
  type byte = x: int | 0 <= x < 256
}

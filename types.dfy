/** Types shared by the scanner model: optional values and 16-bit port numbers. */
module Types {

  /** Rust's `Option`. */
  datatype Option<+T> = None | Some(value: T)

  /** A TCP port number, a Rust `u16`. */
  type Port = p: int | 0 <= p < 0x1_0000
}

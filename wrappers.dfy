/** Small helper datatypes shared by the modules of this model. */
module Wrappers {

  /** A value that may be absent (a null reference, an empty function object). */
  datatype Option<+T> = None | Some(value: T)

  /** Opaque identity of an operation (a closure in the original program). */
  type OpId = nat

  /** An outbound or inbound message payload; never interpreted here. */
  type ByteBuffer = seq<bv8>
}

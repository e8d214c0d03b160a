/** Small shared vocabulary: optional values (Java's nullable references),
    bytes, and the identity of a registered callback object. */
module Base {

  /** A Java reference that may be null. */
  datatype Option<T> = None | Some(value: T)

  /** One octet. */
  type Byte = b: int | 0 <= b < 256

  /** The identity of a callback object handed to a manager. Callbacks are
      not invoked re-entrantly in this model: a manager appends a notice
      addressed to the callback's identity to its log instead. */
  type CallbackId = nat
}

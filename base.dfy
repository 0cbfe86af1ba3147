/** Small shared vocabulary: optional values, their truthiness, and bytes. */
module Base {

  datatype Option<+T> = None | Some(value: T)

  /** Python truthiness of an optional string argument. */
  predicate Given(arg: Option<string>) {
    arg.Some? && arg.value != ""
  }

  /** One byte of a file or of decoded image data. */
  type byte = b: int | 0 <= b < 256
}

/** Shared vocabulary: optional document fields and MongoDB object ids. */
module Common {

  /** A document field that may be absent (`undefined` in the JavaScript source). */
  datatype Option<+T> = None | Some(value: T)

  /** A MongoDB `_id`; the model only needs equality and fresh values, so a number stands for it. */
  type ObjectId = nat
}

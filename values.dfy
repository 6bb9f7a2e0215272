/**
 * Values shared by the connection registry, the query set and the fields:
 * a dynamically typed value as Python and BSON know it, and the usual
 * Option and Result wrappers for absent values and raised errors.
 */
module Values {

  /** A Python value as it travels through keyword arguments and documents. */
  datatype Value =
    | Null                              // Python None
    | Bool(b: bool)
    | Int(i: int)
    | Text(s: string)                   // an instance of six.string_types
    | Doc(entries: map<string, Value>)  // a dict with text keys
    | List(items: seq<Value>)

  datatype Option<+T> = None | Some(value: T)

  datatype Result<+T, +E> = Ok(value: T) | Err(error: E)
}

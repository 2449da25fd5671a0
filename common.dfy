/** Values shared by every part of the backend model. */
module Common {

  /** Python's `None` or a present value. */
  datatype Option<+T> = None | Some(value: T)

  /** A JSON scalar as the backend stores it in settings and document metadata. */
  datatype Value = Str(s: string) | Int(i: int)

  /** A Python dictionary with string keys, as JSON objects and metadata are. */
  type Dict = map<string, Value>
}

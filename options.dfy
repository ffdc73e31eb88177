/** An optional value: a nullable column, an optional property, or a key
    that may be absent from an object. */
module Options {

  datatype Option<+T> = None | Some(value: T)
}

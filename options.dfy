/** An optional value: an output stream that may be absent, a timestamp that may
    not have been taken yet. */
module Options {

  datatype Option<T> = None | Some(value: T)
}

/** An optional value: stands for a pointer that may be null, or a setting that may be absent. */
module Options {

  datatype Option<+T> = None | Some(value: T)
}

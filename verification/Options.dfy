/** The optional value used for a prompt answer (null when cancelled) and for a
    background image that may not have been loaded yet. */
module Options {
  datatype Option<+T> = None | Some(value: T)
}

/** The conventional value-or-nothing datatype, used for NULL pointers, for data
    that was never written, and for lookups that may fail. */
module Options {
  datatype Option<+T> = None | Some(value: T)
}

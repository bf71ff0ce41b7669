// The optional value used throughout the model where the source uses
// `undefined`, `null` or a failed Map lookup.
module Options {
  datatype Option<+T> = None | Some(value: T)
}

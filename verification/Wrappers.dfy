module Wrappers {
  // Values that may be absent, as Go's nil pointers, empty strings and "value, ok" lookups are.
  datatype Option<+T> = None | Some(value: T)

  // The name of a Kubernetes resource.
  datatype Name = Name(text: string)

  // Any other string.
  datatype Text = Text(chars: string)

  const BLANK := Text("")
}

/** The values of the observer pipeline are Java references, any of which may be
    null. `Option` makes that explicit: `None` is Java's null, read as "nothing
    captured" for a lens, "no initial result" for a bootstrap and "no result yet"
    for an observer. */
module Options {

  datatype Option<+T> = None | Some(value: T)
}

/** A closure is a single mutable cell owned by one observer. Instead of a cell,
    the model threads the cell's state through every call that is handed the
    closure: a call receives the state and returns the state it leaves behind,
    together with the value it returns. */
module Closures {
  import opened Options

  /** What a call handed a closure produces: the closure's state after the call
      and the (possibly null) value the call returns. */
  datatype Threaded<C, +T> = Threaded(closure: C, value: Option<T>)
}

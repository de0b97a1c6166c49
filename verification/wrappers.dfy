/** The absent-or-present value the aggregator returns: Python's `None`
    versus a report dictionary. */
module Wrappers {

  datatype Option<+T> = None | Some(value: T)
}

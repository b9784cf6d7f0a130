/** The optional value used wherever JavaScript yields `undefined`, `NaN` or "no row". */
module Wrappers {

  datatype Option<+T> = None | Some(value: T)
}

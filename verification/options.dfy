/** A value that may be missing: pandas' NaN/None in a cell. */
module Options {

  datatype Option<+T> = None | Some(value: T)
}

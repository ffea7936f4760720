/** The absent-or-present value used wherever the source tests a field or a
    parsed number for `null`, `undefined` or `NaN`. */
module Optional {

  datatype Option<+T> = None | Some(value: T)
}

/** An optional value: the model's stand-in for JavaScript's `undefined`
    results (a failed `find`, a scan that returns nothing, a missing field). */
module Options {

  datatype Option<+T> = None | Some(value: T)
}

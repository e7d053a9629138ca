/** An optional value: JavaScript's `null`/`undefined` next to a present value, a
    detached ref, a missing handle. */
module Options {

  datatype Option<+T> = None | Some(value: T)
}

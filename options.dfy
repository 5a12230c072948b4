/** The optional value used for Go's `error` results: `None` stands for `nil`,
    `Some(text)` for a non-nil error whose `Error()` text is `text`. */
module Options {

  datatype Option<+T> = None | Some(value: T)

}

/** The optional value every pattern candidate returns: `Some` capture when the
    regular expression matches, `None` when `String.prototype.match` gives `null`. */
module Optional {

  datatype Option<+T> = None | Some(value: T)

}

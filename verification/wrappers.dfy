/** The absent-or-present value every lookup of the model returns: the
    JavaScript code answers `null` (or leaves a table slot `undefined`) where
    this model answers `None`. */
module Wrappers {

  datatype Option<+T> = None | Some(value: T) {

    /** The carried value, or `default` when there is none. */
    function GetOr(default: T): T {
      match this
      case Some(v) => v
      case None => default
    }
  }
}

/** The Option type shared by every module: a JavaScript value that may be null or absent. */
module Options {
  datatype Option<+T> = None | Some(value: T) {
    function Or(default: T): T {
      match this
      case Some(v) => v
      case None => default
    }
  }
}

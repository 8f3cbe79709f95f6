/** The optional-value wrapper used throughout the model: `None` stands for a
    JavaScript `undefined` / `null` / absent property. */
module Wrappers {

  datatype Option<+T> = None | Some(value: T) {

    /** The wrapped value, or `default` when there is none (the `??` operator). */
    function GetOr(default: T): T {
      match this
      case Some(v) => v
      case None => default
    }
  }
}

/** The "value or nothing" outcome used for every best-effort step of the pipeline:
    `None` stands for Python's `None` (a failed or skipped tier, a missing key). */
module Wrappers {

  datatype Option<+T> = None | Some(value: T) {

    /** The value, or `default` when there is none (Python's `d.get(key, default)`). */
    function GetOr(default: T): T {
      match this
      case Some(v) => v
      case None => default
    }
  }
}

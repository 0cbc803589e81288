/** Optional values: a JSON field or query parameter that may be absent. */
module Wrappers {

  datatype Option<+T> = None | Some(value: T) {

    /** The value, or `default` when absent. */
    function GetOr(default: T): T {
      match this
      case Some(v) => v
      case None => default
    }
  }

  /**
   * JavaScript truthiness of an optional string: present and non-empty. A
   * required string path of a schema is satisfied only by such a string.
   */
  predicate Truthy(s: Option<string>) {
    s.Some? && s.value != ""
  }
}

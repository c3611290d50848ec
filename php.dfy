/** The PHP truthiness tests the media trait applies to strings and ids. */
module Php {
  import opened Wrappers

  /** A PHP string is falsy exactly when it is "" or "0". */
  predicate Truthy(s: string)
  {
    s != "" && s != "0"
  }

  /** `$x && $x != ''` for a nullable string: present and truthy. */
  predicate OptTruthy(s: Option<string>)
  {
    s.Some? && Truthy(s.value)
  }

  /** `$id && $id != ''` for a nullable integer id: present and non-zero. */
  predicate IdTruthy(id: Option<nat>)
  {
    id.Some? && id.value != 0
  }
}

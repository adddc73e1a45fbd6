/** Optional values and the JavaScript fallback idioms the pages lean on:
    `a || fallback` on a string that may be absent, and `n || 0` on a
    number that may be absent. */
module Wrappers {

  /** An optional value: `undefined`/`null` is `None`. */
  datatype Option<+T> = None | Some(value: T) {

    /** The value, or `default` when absent (JavaScript `??`). */
    function GetOr(default: T): T {
      match this
      case Some(v) => v
      case None => default
    }
  }

  /** `a || fallback` for an optional string: an absent or empty string is falsy. */
  function OrElse(a: Option<string>, fallback: string): (r: string)
    ensures a.Some? && a.value != "" ==> r == a.value
    ensures a.None? || a.value == "" ==> r == fallback
  {
    if a.Some? && a.value != "" then a.value else fallback
  }

  /** `n || 0` for an optional number: absent and zero both give zero. */
  function NumberOr0(n: Option<int>): (r: int)
    ensures n.Some? ==> r == n.value
    ensures n.None? ==> r == 0
  {
    n.GetOr(0)
  }

  /** A truthy number: present and non-zero. */
  predicate Truthy(n: Option<int>) {
    n.Some? && n.value != 0
  }
}
